/** The pure part of the runner's send and recv: which strategy the command
    and type switches select, the atomic width check, the PUT completion
    marker, and which pairings are rejected with UCS_ERR_INVALID_PARAM. */
module Strategy {
  import opened PerfTypes
  import opened Dispatcher

  /** The value `send` writes into the last byte of a PUT buffer. */
  datatype Marker = SequenceMarker | ZeroMarker

  /** What `send` does for one (command, type, length). */
  datatype SendAction =
    | WindowedSend              // TAG, TAG_SYNC, STREAM, AM: wait for a slot, then issue
    | PutWithMarker(m: Marker)  // PUT: write the marker, then issue the put
    | DirectOp                  // GET, or an atomic of width 4 or 8: issue, return its status
    | SendRejected              // UCS_ERR_INVALID_PARAM

  /** The outer switch of `send` over CMD, with the inner switches over TYPE
      (for PUT) and over the operand width (for the atomics). */
  function SendActionFor(cmd: Command, t: TestType, length: nat): SendAction {
    match cmd
    case Tag | TagSync | Stream | Am => WindowedSend
    case Put =>
      (match t
       case PingPong | PingPongWaitMem => PutWithMarker(SequenceMarker)
       case StreamUni => PutWithMarker(ZeroMarker)
       case StreamBi => SendRejected)
    case Get => DirectOp
    case Add | FAdd | Swap | CSwap =>
      if length == 4 || length == 8 then DirectOp else SendRejected
  }

  /** GET and the fetching atomics (FADD, SWAP, CSWAP) leave the remote
      value in the send buffer; every other send only reads it. */
  predicate FetchesInto(cmd: Command) {
    cmd == Get || cmd == FAdd || cmd == Swap || cmd == CSwap
  }

  /** The byte a marker stands for at sequence number `sn`. */
  function MarkerValue(m: Marker, sn: Byte): Byte {
    match m
    case SequenceMarker => sn
    case ZeroMarker => 0
  }

  /** What `recv` does for one (command, type, FLAGS). */
  datatype RecvAction =
    | WindowedTagRecv(probe: bool)  // TAG, TAG_SYNC: wait for a slot, maybe probe, post
    | AmStart                       // AM: count the operation; the handler completes it
    | SpinMarker(waitMem: bool)     // PUT round trip: wait until the marker byte equals sn
    | NoRecv                        // PUT STREAM_UNI: nothing to do
    | ProgressOnce                  // GET and atomics on STREAM_UNI: progress the responder
    | StreamRecvData                // STREAM with STREAM_RECV_DATA: release chunks as they come
    | StreamRecvFill                // STREAM without it: fill the buffer at successive offsets
    | RecvRejected                  // UCS_ERR_INVALID_PARAM

  function RecvActionFor(cmd: Command, t: TestType, caseFlags: Flags): RecvAction {
    match cmd
    case Tag | TagSync => WindowedTagRecv(HasFlag(caseFlags, FLAG_TAG_UNEXP_PROBE))
    case Am => AmStart
    case Put =>
      (match t
       case PingPong => SpinMarker(false)
       case PingPongWaitMem => SpinMarker(true)
       case StreamUni => NoRecv
       case StreamBi => RecvRejected)
    case Get | Add | FAdd | Swap | CSwap =>
      if t == StreamUni then ProgressOnce else RecvRejected
    case Stream =>
      if HasFlag(caseFlags, FLAG_STREAM_RECV_DATA) then StreamRecvData else StreamRecvFill
  }

  /** TAG_MASK: a wildcard-tag runner matches any tag, the others the exact tag. */
  function TagMask(caseFlags: Flags): (m: bv64)
    ensures m == 0 <==> HasFlag(caseFlags, FLAG_TAG_WILDCARD)
    ensures !HasFlag(caseFlags, FLAG_TAG_WILDCARD) ==> m == 0xFFFF_FFFF_FFFF_FFFF
  {
    if HasFlag(caseFlags, FLAG_TAG_WILDCARD) then 0 else 0xFFFF_FFFF_FFFF_FFFF
  }

  // ---------------------------------------------------------------------
  // Properties of the switches.

  /** The atomics accept exactly the widths 4 and 8, for every test type. */
  lemma AtomicWidthChecked(cmd: Command, t: TestType, length: nat)
    requires IsAtomic(cmd)
    ensures SendActionFor(cmd, t, length) == SendRejected <==> length != 4 && length != 8
    ensures SendActionFor(cmd, t, length) != SendRejected ==> SendActionFor(cmd, t, length) == DirectOp
  {
  }

  /** Exactly the message commands are gated by the outstanding window on send. */
  lemma WindowedSendCommands(cmd: Command, t: TestType, length: nat)
    ensures SendActionFor(cmd, t, length) == WindowedSend
        <==> cmd == Tag || cmd == TagSync || cmd == Stream || cmd == Am
  {
  }

  /** `send` rejects exactly an atomic of the wrong width and PUT with STREAM_BI. */
  lemma SendRejectsExactly(cmd: Command, t: TestType, length: nat)
    ensures SendActionFor(cmd, t, length) == SendRejected
        <==> (IsAtomic(cmd) && length != 4 && length != 8) || (cmd == Put && t == StreamBi)
  {
  }

  /** `recv` rejects exactly GET or an atomic outside STREAM_UNI, and PUT with STREAM_BI. */
  lemma RecvRejectsExactly(cmd: Command, t: TestType, caseFlags: Flags)
    ensures RecvActionFor(cmd, t, caseFlags) == RecvRejected
        <==> ((cmd == Get || IsAtomic(cmd)) && t != StreamUni) || (cmd == Put && t == StreamBi)
  {
  }

  /** The PUT marker: the sequence number for the round-trip types, zero for
      STREAM_UNI; no marker (and INVALID_PARAM) for any other type. */
  lemma PutMarkerPolicy(t: TestType, length: nat, sn: Byte)
    ensures (t == PingPong || t == PingPongWaitMem) ==> SendActionFor(Put, t, length) == PutWithMarker(SequenceMarker)
    ensures t == StreamUni ==> SendActionFor(Put, t, length) == PutWithMarker(ZeroMarker)
    ensures SendActionFor(Put, t, length).PutWithMarker? <==> t != StreamBi
  {
  }

  /** A case flag selected under a mask that covers the bit tells the same
      as the request's own flags. */
  lemma MaskedBit(flags: Flags, mask: Flags, bit: Flags)
    requires bit & mask == bit
    ensures HasFlag(flags & mask, bit) <==> HasFlag(flags, bit)
  {
  }

  /** Every pair the table lists has a recv strategy, and its send rejects
      nothing but an atomic of the wrong width. */
  lemma SupportedPairsServed(cmd: Command, t: TestType, caseFlags: Flags, length: nat)
    requires Supported(cmd, t)
    ensures RecvActionFor(cmd, t, caseFlags) != RecvRejected
    ensures SendActionFor(cmd, t, length) == SendRejected <==> IsAtomic(cmd) && length != 4 && length != 8
  {
  }

  /** Every runner the dispatcher constructs has a recv strategy for its pair,
      and its send rejects nothing but an atomic of the wrong width. */
  lemma DispatchedStrategiesAccept(p: TestParams, length: nat)
    requires Dispatch(p).Some?
    ensures var e := Dispatch(p).value;
      RecvActionFor(e.command, e.testType, e.flags) != RecvRejected
      && (SendActionFor(e.command, e.testType, length) == SendRejected
          <==> IsAtomic(e.command) && length != 4 && length != 8)
  {
    DispatchExact(p);
    var e := Dispatch(p).value;
    SupportedPairsServed(e.command, e.testType, e.flags, length);
  }

  /** The case a STREAM request selects chooses its loop by the request's
      own STREAM_RECV_DATA bit. */
  lemma StreamEntryFlags(p: TestParams)
    requires p.command == Stream && Supported(p.command, p.testType)
    ensures var e := ExpectedEntry(p);
      RecvActionFor(e.command, e.testType, e.flags) == StreamRecvData
      <==> HasFlag(p.flags, FLAG_STREAM_RECV_DATA)
  {
    MaskedBit(p.flags, FLAG_STREAM_RECV_DATA, FLAG_STREAM_RECV_DATA);
  }

  /** The case a TAG or TAG_SYNC request selects probes by the request's own
      TAG_UNEXP_PROBE bit and matches any tag by its TAG_WILDCARD bit. */
  lemma TagEntryFlags(p: TestParams)
    requires (p.command == Tag || p.command == TagSync) && Supported(p.command, p.testType)
    ensures var e := ExpectedEntry(p);
      RecvActionFor(e.command, e.testType, e.flags) == WindowedTagRecv(HasFlag(p.flags, FLAG_TAG_UNEXP_PROBE))
      && (TagMask(e.flags) == 0 <==> HasFlag(p.flags, FLAG_TAG_WILDCARD))
  {
    MaskedBit(p.flags, TAG_FLAGS_MASK, FLAG_TAG_UNEXP_PROBE);
    MaskedBit(p.flags, TAG_FLAGS_MASK, FLAG_TAG_WILDCARD);
  }

  /** The runner's FLAGS reproduce the request's option bits its family masks:
      a STREAM runner uses the release-as-arrives loop exactly when the request
      asked for STREAM_RECV_DATA, a TAG runner probes exactly when the request
      asked for TAG_UNEXP_PROBE and matches any tag exactly for TAG_WILDCARD. */
  lemma DispatchedFlagsSelectVariant(p: TestParams)
    requires Dispatch(p).Some?
    ensures var e := Dispatch(p).value;
      (p.command == Stream ==>
        (RecvActionFor(e.command, e.testType, e.flags) == StreamRecvData
         <==> HasFlag(p.flags, FLAG_STREAM_RECV_DATA)))
      && ((p.command == Tag || p.command == TagSync) ==>
        RecvActionFor(e.command, e.testType, e.flags)
          == WindowedTagRecv(HasFlag(p.flags, FLAG_TAG_UNEXP_PROBE))
        && (TagMask(e.flags) == 0 <==> HasFlag(p.flags, FLAG_TAG_WILDCARD)))
  {
    DispatchExact(p);
    if p.command == Stream {
      StreamEntryFlags(p);
    } else if p.command == Tag || p.command == TagSync {
      TagEntryFlags(p);
    }
  }
}
