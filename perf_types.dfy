/** Vocabulary shared by the model of the UCP performance-test engine:
    the test descriptor's enumerations, the option flag bits, status codes,
    the 8-bit sequence number and a sum over sequences of counts. */
module PerfTypes {

  /** ucx_perf_cmd_t: the operation kind being measured. */
  datatype Command = Am | Put | Get | Add | FAdd | Swap | CSwap | Tag | TagSync | Stream

  /** ucx_perf_test_type_t: the execution pattern. */
  datatype TestType = PingPong | PingPongWaitMem | StreamUni | StreamBi

  /** The option flag word (params.flags, an unsigned int). */
  type Flags = bv32

  // Option bits used by the engine (UCX_PERF_TEST_FLAG_*, defined in libperf.h).
  const FLAG_ONE_SIDED: Flags := 1 << 2
  const FLAG_TAG_WILDCARD: Flags := 1 << 4
  const FLAG_TAG_UNEXP_PROBE: Flags := 1 << 5
  const FLAG_STREAM_RECV_DATA: Flags := 1 << 8
  const FLAG_FLUSH_EP: Flags := 1 << 9

  predicate HasFlag(flags: Flags, bit: Flags) {
    flags & bit != 0
  }

  /** ucs_status_t: zero is success, one is "in progress", negatives are errors. */
  type Status = int
  const OK: Status := 0
  const INPROGRESS: Status := 1
  const ERR_INVALID_PARAM: Status := -5

  /** An error status returned by the communication library. */
  type ErrorCode = c: int | c < 0 witness -1

  /** Width of an unsigned int: m_outstanding and m_max_outstanding are unsigned. */
  const U32: nat := 0x1_0000_0000

  /** A byte of a buffer, and the uint8_t sequence number (psn_t). */
  type Byte = x: int | 0 <= x < 256

  /** The atomic operations, whose operand width must be 4 or 8 bytes. */
  predicate IsAtomic(c: Command) {
    c == Add || c == FAdd || c == Swap || c == CSwap
  }

  /** Sum of a sequence of counts, accumulated from the left. */
  function Sum(s: seq<nat>): nat {
    if s == [] then 0 else Sum(s[..|s| - 1]) + s[|s| - 1]
  }

  /** Extending a prefix by one element adds that element to the sum. */
  lemma SumPrefixStep(s: seq<nat>, i: nat)
    requires i < |s|
    ensures Sum(s[..i + 1]) == Sum(s[..i]) + s[i]
  {
    assert s[..i + 1][..i] == s[..i];
  }

  /** The sum of a prefix never exceeds the sum of the whole sequence. */
  lemma {:induction false} SumPrefixBound(s: seq<nat>, i: nat)
    requires i <= |s|
    ensures Sum(s[..i]) <= Sum(s)
  {
    if i < |s| {
      SumPrefixBound(s[..|s| - 1], i);
      assert s[..|s| - 1][..i] == s[..i];
    } else {
      assert s[..i] == s;
    }
  }

  /** Summing the first element and the rest. */
  lemma {:induction false} SumCons(s: seq<nat>)
    requires s != []
    ensures Sum(s) == s[0] + Sum(s[1..])
  {
    if |s| > 1 {
      SumCons(s[..|s| - 1]);
      assert s[..|s| - 1][1..] == s[1..][..|s[1..]| - 1];
    } else {
      assert s[1..] == [];
    }
  }
}
