/** The test-case dispatcher: ucp_perf_test_dispatch and its TEST_CASE tables.
    Each TEST_CASE entry names a command, a test type, a flag value and a
    mask; the entries are tried in order and the first one whose command and
    type equal the request and whose masked flags equal its value is run. */
module Dispatcher {
  import opened PerfTypes

  datatype Option<T> = None | Some(value: T)

  /** The part of the test parameters the dispatcher looks at. */
  datatype TestParams = TestParams(command: Command, testType: TestType, flags: Flags)

  /** One TEST_CASE(cmd, type, flags, mask) entry; `flags` becomes the
      runner's FLAGS template argument. */
  datatype TestCase = TestCase(command: Command, testType: TestType, flags: Flags, mask: Flags)

  /** The condition a TEST_CASE tests before it constructs and runs its runner. */
  predicate Matches(c: TestCase, p: TestParams) {
    p.command == c.command && p.testType == c.testType && p.flags & c.mask == c.flags
  }

  /** The four TEST_CASE_ALL_* macros. */
  datatype CaseFamily = AllOsd | AllTag | AllStream | AllAm

  const TAG_FLAGS_MASK: Flags := FLAG_TAG_WILDCARD | FLAG_TAG_UNEXP_PROBE

  /** The mask every entry of a family is declared with. */
  function FamilyMask(f: CaseFamily): Flags {
    match f
    case AllOsd => FLAG_ONE_SIDED
    case AllTag => TAG_FLAGS_MASK
    case AllStream => FLAG_STREAM_RECV_DATA
    case AllAm => 0
  }

  /** The entries one TEST_CASE_ALL_* macro expands to for one (command, type) pair. */
  function Expand(f: CaseFamily, cmd: Command, t: TestType): seq<TestCase> {
    var m := FamilyMask(f);
    match f
    case AllOsd =>
      [TestCase(cmd, t, 0, m), TestCase(cmd, t, FLAG_ONE_SIDED, m)]
    case AllTag =>
      [TestCase(cmd, t, 0, m), TestCase(cmd, t, FLAG_TAG_WILDCARD, m),
       TestCase(cmd, t, FLAG_TAG_UNEXP_PROBE, m),
       TestCase(cmd, t, FLAG_TAG_WILDCARD | FLAG_TAG_UNEXP_PROBE, m)]
    case AllStream =>
      [TestCase(cmd, t, 0, m), TestCase(cmd, t, FLAG_STREAM_RECV_DATA, m)]
    case AllAm =>
      [TestCase(cmd, t, 0, m)]
  }

  /** UCS_PP_FOREACH(macro, perf, pairs...): the expansions, in order. */
  function ForEach(f: CaseFamily, pairs: seq<(Command, TestType)>): seq<TestCase> {
    if pairs == [] then [] else Expand(f, pairs[0].0, pairs[0].1) + ForEach(f, pairs[1..])
  }

  const OsdPairs: seq<(Command, TestType)> :=
    [(Put, PingPong), (Put, PingPongWaitMem), (Put, StreamUni), (Get, StreamUni),
     (Add, StreamUni), (FAdd, StreamUni), (Swap, StreamUni), (CSwap, StreamUni)]
  const TagPairs: seq<(Command, TestType)> :=
    [(Tag, PingPong), (Tag, StreamUni), (TagSync, PingPong), (TagSync, StreamUni)]
  const StreamPairs: seq<(Command, TestType)> :=
    [(Stream, StreamUni), (Stream, PingPong)]
  const AmPairs: seq<(Command, TestType)> :=
    [(Am, PingPong), (Am, StreamUni)]

  /** The whole table, in the order ucp_perf_test_dispatch tries it. */
  const Table: seq<TestCase> :=
    ForEach(AllOsd, OsdPairs) + ForEach(AllTag, TagPairs)
    + ForEach(AllStream, StreamPairs) + ForEach(AllAm, AmPairs)

  /** Index of the first entry of `table` that matches `p`. */
  function FirstMatch(table: seq<TestCase>, p: TestParams): (r: Option<nat>)
    ensures r.Some? ==> r.value < |table| && Matches(table[r.value], p)
    ensures r.Some? ==> forall j :: 0 <= j < r.value ==> !Matches(table[j], p)
    ensures r.None? ==> forall j :: 0 <= j < |table| ==> !Matches(table[j], p)
  {
    if table == [] then None
    else if Matches(table[0], p) then Some(0)
    else match FirstMatch(table[1..], p)
      case None => None
      case Some(i) => Some(i + 1)
  }

  /** The entry FirstMatch picks, if any. */
  function SelectEntry(table: seq<TestCase>, p: TestParams): Option<TestCase> {
    match FirstMatch(table, p)
    case None => None
    case Some(i) => Some(table[i])
  }

  /** ucp_perf_test_dispatch's choice: the runner configuration to construct
      and run, or None, for which the dispatcher returns UCS_ERR_INVALID_PARAM. */
  function Dispatch(p: TestParams): (r: Option<TestCase>)
    ensures r.Some? ==> r.value in Table && Matches(r.value, p)
    ensures r.None? ==> forall c :: c in Table ==> !Matches(c, p)
  {
    SelectEntry(Table, p)
  }

  // ---------------------------------------------------------------------
  // An independent description of the table's content.

  /** The (command, type) pairs some TEST_CASE_ALL_* list names. */
  predicate Supported(cmd: Command, t: TestType) {
    (cmd, t) in OsdPairs || (cmd, t) in TagPairs || (cmd, t) in StreamPairs || (cmd, t) in AmPairs
  }

  /** The mask the table uses for a command (each command is in one family). */
  function MaskFor(cmd: Command): Flags {
    match cmd
    case Put | Get | Add | FAdd | Swap | CSwap => FLAG_ONE_SIDED
    case Tag | TagSync => TAG_FLAGS_MASK
    case Stream => FLAG_STREAM_RECV_DATA
    case Am => 0
  }

  /** The entry a request should get: its own command and type, with the
      command's mask and the request's flags under that mask. */
  function ExpectedEntry(p: TestParams): TestCase {
    TestCase(p.command, p.testType, p.flags & MaskFor(p.command), MaskFor(p.command))
  }

  /** Choosing from a concatenation: the first part wins when it has a match. */
  lemma {:induction false} SelectConcat(a: seq<TestCase>, b: seq<TestCase>, p: TestParams)
    ensures SelectEntry(a + b, p) == if SelectEntry(a, p).Some? then SelectEntry(a, p) else SelectEntry(b, p)
  {
    if a == [] {
      assert a + b == b;
    } else {
      assert (a + b)[0] == a[0];
      if !Matches(a[0], p) {
        assert (a + b)[1..] == a[1..] + b;
        SelectConcat(a[1..], b, p);
      }
    }
  }

  /** Choosing from a one-entry table. */
  lemma SelectSingle(c: TestCase, p: TestParams)
    ensures SelectEntry([c], p) == if Matches(c, p) then Some(c) else None
  {
  }

  /** The masked flags of a request take one of the values the family lists. */
  lemma MaskedValues(flags: Flags)
    ensures flags & FLAG_ONE_SIDED == 0 || flags & FLAG_ONE_SIDED == FLAG_ONE_SIDED
    ensures flags & FLAG_STREAM_RECV_DATA == 0 || flags & FLAG_STREAM_RECV_DATA == FLAG_STREAM_RECV_DATA
    ensures var v := flags & TAG_FLAGS_MASK;
      v == 0 || v == FLAG_TAG_WILDCARD || v == FLAG_TAG_UNEXP_PROBE || v == FLAG_TAG_WILDCARD | FLAG_TAG_UNEXP_PROBE
  {
  }

  /** TEST_CASE_ALL_OSD: its two entries cover both values of ONE_SIDED. */
  lemma ExpandSelectOsd(cmd: Command, t: TestType, p: TestParams)
    ensures SelectEntry(Expand(AllOsd, cmd, t), p)
         == if p.command == cmd && p.testType == t
            then Some(TestCase(cmd, t, p.flags & FLAG_ONE_SIDED, FLAG_ONE_SIDED))
            else None
  {
    var e := Expand(AllOsd, cmd, t);
    MaskedValues(p.flags);
    SelectSingle(e[0], p);
    SelectSingle(e[1], p);
    SelectConcat([e[0]], [e[1]], p);
    assert e == [e[0]] + [e[1]];
  }

  /** TEST_CASE_ALL_TAG: its four entries cover every value of the two tag bits. */
  lemma ExpandSelectTag(cmd: Command, t: TestType, p: TestParams)
    ensures SelectEntry(Expand(AllTag, cmd, t), p)
         == if p.command == cmd && p.testType == t
            then Some(TestCase(cmd, t, p.flags & TAG_FLAGS_MASK, TAG_FLAGS_MASK))
            else None
  {
    var e := Expand(AllTag, cmd, t);
    MaskedValues(p.flags);
    SelectSingle(e[0], p);
    SelectSingle(e[1], p);
    SelectSingle(e[2], p);
    SelectSingle(e[3], p);
    SelectConcat([e[2]], [e[3]], p);
    SelectConcat([e[1]], [e[2]] + [e[3]], p);
    SelectConcat([e[0]], [e[1]] + ([e[2]] + [e[3]]), p);
    assert e == [e[0]] + ([e[1]] + ([e[2]] + [e[3]]));
  }

  /** TEST_CASE_ALL_STREAM: its two entries cover both values of STREAM_RECV_DATA. */
  lemma ExpandSelectStream(cmd: Command, t: TestType, p: TestParams)
    ensures SelectEntry(Expand(AllStream, cmd, t), p)
         == if p.command == cmd && p.testType == t
            then Some(TestCase(cmd, t, p.flags & FLAG_STREAM_RECV_DATA, FLAG_STREAM_RECV_DATA))
            else None
  {
    var e := Expand(AllStream, cmd, t);
    MaskedValues(p.flags);
    SelectSingle(e[0], p);
    SelectSingle(e[1], p);
    SelectConcat([e[0]], [e[1]], p);
    assert e == [e[0]] + [e[1]];
  }

  /** One macro expansion covers every flag value of its (command, type) pair:
      its match is the entry holding the request's flags under the family mask. */
  lemma ExpandSelect(f: CaseFamily, cmd: Command, t: TestType, p: TestParams)
    ensures SelectEntry(Expand(f, cmd, t), p)
         == if p.command == cmd && p.testType == t
            then Some(TestCase(cmd, t, p.flags & FamilyMask(f), FamilyMask(f)))
            else None
  {
    match f
    case AllOsd => ExpandSelectOsd(cmd, t, p);
    case AllTag => ExpandSelectTag(cmd, t, p);
    case AllStream => ExpandSelectStream(cmd, t, p);
    case AllAm => ExpandSelectAm(cmd, t, p);
  }

  /** TEST_CASE_ALL_AM: its one entry takes every flag value. */
  lemma ExpandSelectAm(cmd: Command, t: TestType, p: TestParams)
    ensures SelectEntry(Expand(AllAm, cmd, t), p)
         == if p.command == cmd && p.testType == t then Some(TestCase(cmd, t, p.flags & 0, 0)) else None
  {
    assert Expand(AllAm, cmd, t) == [TestCase(cmd, t, 0, 0)];
    assert p.flags & 0 == 0;
    SelectSingle(TestCase(cmd, t, 0, 0), p);
  }

  /** A whole UCS_PP_FOREACH list selects exactly by membership of the pair. */
  lemma {:induction false} ForEachSelect(f: CaseFamily, pairs: seq<(Command, TestType)>, p: TestParams)
    ensures SelectEntry(ForEach(f, pairs), p)
         == if (p.command, p.testType) in pairs
            then Some(TestCase(p.command, p.testType, p.flags & FamilyMask(f), FamilyMask(f)))
            else None
  {
    if pairs != [] {
      ExpandSelect(f, pairs[0].0, pairs[0].1, p);
      SelectConcat(Expand(f, pairs[0].0, pairs[0].1), ForEach(f, pairs[1..]), p);
      ForEachSelect(f, pairs[1..], p);
      assert (p.command, p.testType) in pairs
        <==> (p.command, p.testType) == pairs[0] || (p.command, p.testType) in pairs[1..];
    }
  }

  /** Each family's pair list uses only commands whose mask is the family's. */
  lemma FamilyMaskFor(p: TestParams)
    ensures (p.command, p.testType) in OsdPairs ==> MaskFor(p.command) == FamilyMask(AllOsd)
    ensures (p.command, p.testType) in TagPairs ==> MaskFor(p.command) == FamilyMask(AllTag)
    ensures (p.command, p.testType) in StreamPairs ==> MaskFor(p.command) == FamilyMask(AllStream)
    ensures (p.command, p.testType) in AmPairs ==> MaskFor(p.command) == FamilyMask(AllAm)
  {
  }

  /** Choosing from four consecutive families, each described by its pair list. */
  lemma SelectFamilies(a: seq<TestCase>, b: seq<TestCase>, c: seq<TestCase>, d: seq<TestCase>, p: TestParams)
    requires SelectEntry(a, p) == if (p.command, p.testType) in OsdPairs then Some(ExpectedEntry(p)) else None
    requires SelectEntry(b, p) == if (p.command, p.testType) in TagPairs then Some(ExpectedEntry(p)) else None
    requires SelectEntry(c, p) == if (p.command, p.testType) in StreamPairs then Some(ExpectedEntry(p)) else None
    requires SelectEntry(d, p) == if (p.command, p.testType) in AmPairs then Some(ExpectedEntry(p)) else None
    ensures SelectEntry(a + b + c + d, p) == if Supported(p.command, p.testType) then Some(ExpectedEntry(p)) else None
  {
    SelectConcat(a + b + c, d, p);
    SelectConcat(a + b, c, p);
    SelectConcat(a, b, p);
  }

  /** Dispatch in closed form: a supported pair always gets its expected entry,
      whatever the flags, and every other pair is rejected. */
  lemma DispatchExact(p: TestParams)
    ensures Dispatch(p) == if Supported(p.command, p.testType) then Some(ExpectedEntry(p)) else None
  {
    FamilyMaskFor(p);
    ForEachSelect(AllOsd, OsdPairs, p);
    ForEachSelect(AllTag, TagPairs, p);
    ForEachSelect(AllStream, StreamPairs, p);
    ForEachSelect(AllAm, AmPairs, p);
    SelectFamilies(ForEach(AllOsd, OsdPairs), ForEach(AllTag, TagPairs),
                   ForEach(AllStream, StreamPairs), ForEach(AllAm, AmPairs), p);
  }

  /** A request is rejected exactly when its (command, type) pair is not in the
      table: the flags alone never cause INVALID_PARAM. */
  lemma DispatchRejectsExactlyUnsupported(p: TestParams)
    ensures Dispatch(p).None? <==> !Supported(p.command, p.testType)
  {
    DispatchExact(p);
  }

  /** STREAM is never measured bidirectionally: STREAM with STREAM_BI is rejected, whatever its flags. */
  lemma DispatchRejectsStreamBi(f: Flags)
    ensures Dispatch(TestParams(Stream, StreamBi, f)).None?
  {
    UnlistedPairs();
    DispatchRejectsExactlyUnsupported(TestParams(Stream, StreamBi, f));
  }

  /** GET is only measured one-directionally: GET with PINGPONG is rejected. */
  lemma DispatchRejectsGetPingPong(f: Flags)
    ensures Dispatch(TestParams(Get, PingPong, f)).None?
  {
    UnlistedPairs();
    DispatchRejectsExactlyUnsupported(TestParams(Get, PingPong, f));
  }

  lemma UnlistedPairs()
    ensures !Supported(Stream, StreamBi) && !Supported(Get, PingPong)
  {
  }

  /** No list names STREAM_BI. */
  lemma ListedTypes(cmd: Command, t: TestType)
    requires Supported(cmd, t)
    ensures t != StreamBi
  {
  }

  /** Every entry of a family carries the family mask and a value inside it. */
  lemma {:induction false} ForEachMasks(f: CaseFamily, pairs: seq<(Command, TestType)>, c: TestCase)
    requires c in ForEach(f, pairs)
    ensures c.mask == FamilyMask(f) && c.flags & c.mask == c.flags
    ensures (c.command, c.testType) in pairs
  {
    if c !in Expand(f, pairs[0].0, pairs[0].1) {
      ForEachMasks(f, pairs[1..], c);
    }
  }

  /** An entry of one family's expansion has its command's mask. */
  lemma FamilyEntryMask(f: CaseFamily, pairs: seq<(Command, TestType)>, c: TestCase)
    requires c in ForEach(f, pairs)
    requires forall q :: q in pairs ==> MaskFor(q.0) == FamilyMask(f)
    ensures c.mask == MaskFor(c.command) && c.flags & c.mask == c.flags
    ensures (c.command, c.testType) in pairs
  {
    ForEachMasks(f, pairs, c);
  }

  /** The table is the four families' expansions, one after the other. */
  lemma TableFamilies(c: TestCase)
    requires c in Table
    ensures c in ForEach(AllOsd, OsdPairs) || c in ForEach(AllTag, TagPairs)
         || c in ForEach(AllStream, StreamPairs) || c in ForEach(AllAm, AmPairs)
  {
  }

  /** An entry of a given family has its command's mask and a supported pair. */
  lemma OsdEntry(c: TestCase)
    requires c in ForEach(AllOsd, OsdPairs)
    ensures c.mask == MaskFor(c.command) && c.flags & c.mask == c.flags && Supported(c.command, c.testType)
  {
    OsdMasks();
    FamilyEntryMask(AllOsd, OsdPairs, c);
  }

  lemma OsdMasks()
    ensures forall q :: q in OsdPairs ==> MaskFor(q.0) == FamilyMask(AllOsd)
  {
  }

  lemma TagEntry(c: TestCase)
    requires c in ForEach(AllTag, TagPairs)
    ensures c.mask == MaskFor(c.command) && c.flags & c.mask == c.flags && Supported(c.command, c.testType)
  {
    TagMasks();
    FamilyEntryMask(AllTag, TagPairs, c);
  }

  lemma TagMasks()
    ensures forall q :: q in TagPairs ==> MaskFor(q.0) == FamilyMask(AllTag)
  {
  }

  lemma StreamEntry(c: TestCase)
    requires c in ForEach(AllStream, StreamPairs)
    ensures c.mask == MaskFor(c.command) && c.flags & c.mask == c.flags && Supported(c.command, c.testType)
  {
    StreamMasks();
    FamilyEntryMask(AllStream, StreamPairs, c);
  }

  lemma StreamMasks()
    ensures forall q :: q in StreamPairs ==> MaskFor(q.0) == FamilyMask(AllStream)
  {
  }

  lemma AmEntry(c: TestCase)
    requires c in ForEach(AllAm, AmPairs)
    ensures c.mask == MaskFor(c.command) && c.flags & c.mask == c.flags && Supported(c.command, c.testType)
  {
    FamilyEntryMask(AllAm, AmPairs, c);
  }

  /** Every entry of the table is declared with its command's mask. */
  lemma TableMasks(c: TestCase)
    requires c in Table
    ensures c.mask == MaskFor(c.command) && c.flags & c.mask == c.flags
    ensures Supported(c.command, c.testType)
  {
    TableFamilies(c);
    if c in ForEach(AllOsd, OsdPairs) {
      OsdEntry(c);
    } else if c in ForEach(AllTag, TagPairs) {
      TagEntry(c);
    } else if c in ForEach(AllStream, StreamPairs) {
      StreamEntry(c);
    } else {
      AmEntry(c);
    }
  }

  /** The entries are pairwise exclusive: any entry that matches a request is
      the one Dispatch picks, so the order of the table does not matter. */
  lemma MatchIsUnique(p: TestParams, i: nat)
    requires i < |Table| && Matches(Table[i], p)
    ensures Dispatch(p) == Some(Table[i])
  {
    TableMasks(Table[i]);
    DispatchExact(p);
  }

  /** The execution loops run() selects from TYPE. */
  datatype Loop = PingPongLoop | StreamUniLoop

  /** run(): PINGPONG and PINGPONG_WAIT_MEM run the round trip, STREAM_UNI the
      one-directional loop, and STREAM_BI (like any other type) is rejected. */
  function LoopFor(t: TestType): (r: Option<Loop>)
    ensures r.None? <==> t == StreamBi
    ensures r == Some(PingPongLoop) <==> t == PingPong || t == PingPongWaitMem
  {
    match t
    case PingPong | PingPongWaitMem => Some(PingPongLoop)
    case StreamUni => Some(StreamUniLoop)
    case StreamBi => None
  }

  /** run()'s rejection of STREAM_BI is never reached through the dispatcher:
      no entry of the table has that type. */
  lemma DispatchedTypeRuns(p: TestParams)
    requires Dispatch(p).Some?
    ensures LoopFor(Dispatch(p).value.testType).Some?
  {
    DispatchExact(p);
    ListedTypes(p.command, p.testType);
  }
}
