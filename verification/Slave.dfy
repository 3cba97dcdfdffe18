/** ReplicationSlave: the parser of the master's reply, snapshot, backlog and stream. */
module ReplicationSlaves {
  import opened ByteStrings
  import opened VNodeStorages
  import opened Databases
  import opened Frames
  import opened Snapshots

  datatype State =
    | Init | WaitFullresync | RecvRdbHeader | RecvRdbBody | RecvBacklogHeader | RecvBacklogBody | Streaming | Error

  /** `input` is the connection's read buffer, `tmp` the snapshot file being received. */
  datatype Slave = Slave(state: State, input: Bytes,
                         tmp: Option<Bytes>, rdbOpen: bool, rdbLeft: nat,
                         backlog: Bytes, backlogLeft: nat, stream: Bytes,
                         replid: Bytes, offset: nat, haveOffset: bool, db: Db)

  const CONTINUE: Bytes := [67, 79, 78, 84, 73, 78, 85, 69]
  const FULLRESYNC: Bytes := [70, 85, 76, 76, 82, 69, 83, 89, 78, 67, 32]   // with its space

  // ---- lines ---------------------------------------------------------------------------------------

  function Find(d: Bytes, b: byte, from: nat): (r: Option<nat>)
    ensures r.Some? ==> from <= r.value < |d| && d[r.value] == b
    ensures forall i | from <= i < |d| && d[i] == b :: r.Some? && r.value <= i
    decreases |d| - from
  {
    if from >= |d| then None else if d[from] == b then Some(from) else Find(d, b, from + 1)
  }

  /** A header line: not there yet, unusable, or its text and the bytes after it. */
  datatype Line = Pending | Broken(left: Bytes) | Got(text: Bytes, rest: Bytes)

  /** A '+' line. A '-' line is the master's refusal; a line whose LF lacks its CR is never left. */
  function SimpleString(d: Bytes): Line {
    if |d| < 3 then Pending
    else if d[0] == MINUS then
      match Find(d, LF, 0)
      case None => Pending
      case Some(end) => Broken(d[end + 1..])
    else if d[0] != PLUS then Broken(d)
    else
      match Find(d, LF, 0)
      case None => Pending
      case Some(end) => if d[end - 1] != CR then Pending else Got(d[1..end - 1], d[end + 1..])
  }

  /** A '$' line. Anything else in its place is waited on, not refused. */
  function BulkHeader(d: Bytes): Line {
    if |d| < 4 || d[0] != DOLLAR then Pending
    else
      match Find(d, LF, 0)
      case None => Pending
      case Some(end) => if d[end - 1] != CR then Pending else Got(d[1..end], d[end + 1..])
  }

  predicate IsBlank(b: byte) { b == SPACE || 9 <= b <= 13 }

  function SkipBlanks(t: Bytes): Bytes { if t != [] && IsBlank(t[0]) then SkipBlanks(t[1..]) else t }

  /** What C's numeral parsers find: behind blanks an optional sign and digits, and what follows. */
  datatype Numeral = Numeral(neg: bool, digits: Bytes, rest: Bytes)

  function ReadNumeral(t: Bytes): (n: Numeral)
    ensures AllDigits(n.digits)
  {
    var u := SkipBlanks(t);
    var neg := u != [] && u[0] == MINUS;
    var d := if neg || (u != [] && u[0] == PLUS) then u[1..] else u;
    var digits := LeadingDigits(d);
    Numeral(neg, digits, d[|digits|..])
  }

  /** The leading decimal integer of a text. */
  function LeadingInt(t: Bytes): Option<int> {
    var n := ReadNumeral(t);
    if n.digits == [] then None
    else
      var v: int := Value(n.digits);
      Some(if n.neg then -v else v)
  }

  const WORD: nat := 0x1_0000_0000_0000_0000

  /** A text that is one unsigned numeral up to its end, or to a zero byte; a minus wraps around. */
  function WholeUnsigned(t: Bytes): Option<nat> {
    var n := ReadNumeral(t);
    if n.digits == [] || (n.rest != [] && n.rest[0] != 0) then None
    else Some(if n.neg then (WORD - Value(n.digits) % WORD) % WORD else Value(n.digits))
  }

  function LeadingDigits(t: Bytes): (r: Bytes)
    ensures AllDigits(r) && r <= t
    ensures |r| < |t| ==> !IsDigit(t[|r|])
  {
    if t == [] || !IsDigit(t[0]) then [] else [t[0]] + LeadingDigits(t[1..])
  }

  // ---- one round of the OnReadable loop ----------------------------------------------------------------

  /** `again` is the loop's `continue`; otherwise OnReadable returns. */
  datatype Round = Round(slave: Slave, again: bool)

  function Fail(s: Slave): Round { Round(s.(state := Error, rdbOpen := false), false) }

  /** "+CONTINUE", or "+FULLRESYNC <replid> <offset>". */
  function HandleSyncReply(s: Slave, reply: Bytes): Round {
    if reply == CONTINUE then Round(s.(state := Streaming), true)
    else if !(FULLRESYNC <= reply) then Fail(s)
    else
      var rest := reply[|FULLRESYNC|..];
      match Find(rest, SPACE, 0)
      case None => Fail(s)
      case Some(sp) =>
        if sp == 0 || sp + 1 >= |rest| then Fail(s)
        else
          var cut := WholeUnsigned(rest[sp + 1..]);
          if cut.None? then Fail(s.(replid := rest[..sp]))
          else Round(s.(replid := rest[..sp], offset := cut.value, haveOffset := true, state := RecvRdbHeader), true)
  }

  /** The received file becomes the data, or the link fails. */
  ghost function FinishRdb(s: Slave, hint: Walk): Round {
    var closed := s.(rdbOpen := false);
    if s.tmp.None? then Fail(closed)
    else
      var l := LoadPath(s.tmp.value, s.db, hint);
      var loaded := closed.(tmp := None, db := l.db);
      if l.ok then Round(loaded.(state := RecvBacklogHeader), true) else Fail(loaded)
  }

  function Least(a: nat, b: nat): nat { if a < b then a else b }

  /** Frames are applied as they complete; the offset counts only what a successful call used. */
  function Drain(s: Slave): Round {
    var bytes := s.stream + s.input;
    Drained(s, bytes, ConsumeStream(s.db, bytes))
  }

  function Drained(s: Slave, bytes: Bytes, r: Consumed): Round
    requires r.used <= |bytes|
  {
    if !r.ok then Fail(s.(input := [], db := r.db, stream := bytes))
    else
      Round(s.(input := [], db := r.db, stream := bytes[r.used..], offset := s.offset + r.used,
               haveOffset := s.haveOffset || r.used > 0), false)
  }

  function ApplyBacklog(s: Slave): Round {
    var r := ConsumeStream(s.db, s.backlog);
    var t := s.(db := r.db);
    if !r.ok || r.used < |s.backlog| then Fail(t)
    else
      Round(t.(backlog := [], offset := s.offset + r.used, haveOffset := s.haveOffset || r.used > 0,
               state := Streaming), true)
  }

  function WaitRound(s: Slave): Round {
    match SimpleString(s.input)
    case Pending => Round(s, false)
    case Broken(left) => Fail(s.(input := left))
    case Got(text, rest) => HandleSyncReply(s.(input := rest), text)
  }

  ghost function RdbHeaderRound(s: Slave, hint: Walk): Round {
    match BulkHeader(s.input)
    case Pending => Round(s, false)
    case Broken(_) => Fail(s)
    case Got(text, rest) =>
      var len := LeadingInt(text);
      if len.None? then Fail(s)
      else if len.value < 0 then Fail(s.(input := rest))
      else
        var t := s.(input := rest, rdbLeft := len.value, state := RecvRdbBody);
        if len.value == 0 then FinishRdb(t, hint) else Round(t, true)
  }

  /** As many received bytes as the snapshot still lacks go to its file. */
  function TakeRdb(s: Slave): Slave {
    var take := Least(|s.input|, s.rdbLeft);
    WithRdb(s, s.input[take..], FileOf(s) + s.input[..take], s.rdbLeft - take)
  }

  function WithRdb(s: Slave, input: Bytes, file: Bytes, left: nat): Slave {
    s.(input := input, tmp := Some(file), rdbOpen := true, rdbLeft := left)
  }

  /** A file not open yet is truncated by opening it. */
  function FileOf(s: Slave): Bytes { if s.rdbOpen && s.tmp.Some? then s.tmp.value else [] }

  ghost function RdbBodyRound(s: Slave, hint: Walk): Round {
    if s.input == [] then Round(s, false)
    else
      var t := TakeRdb(s);
      if t.rdbLeft == 0 then FinishRdb(t, hint) else Round(t, true)
  }

  function BacklogHeaderRound(s: Slave): Round {
    match BulkHeader(s.input)
    case Pending => Round(s, false)
    case Broken(_) => Fail(s)
    case Got(text, rest) =>
      var len := LeadingInt(text);
      if len.None? then Fail(s)
      else if len.value < 0 then Fail(s.(input := rest))
      else
        Round(s.(input := rest, backlog := [], backlogLeft := len.value,
                 state := if len.value == 0 then Streaming else RecvBacklogBody), true)
  }

  function TakeBacklog(s: Slave): Slave {
    var take := Least(|s.input|, s.backlogLeft);
    s.(input := s.input[take..], backlog := s.backlog + s.input[..take], backlogLeft := s.backlogLeft - take)
  }

  function BacklogBodyRound(s: Slave): Round {
    if s.input == [] then Round(s, false)
    else
      var t := TakeBacklog(s);
      if t.backlogLeft == 0 then ApplyBacklog(t) else Round(t, true)
  }

  ghost function Iterate(s: Slave, hint: Walk): Round {
    match s.state
    case WaitFullresync => WaitRound(s)
    case RecvRdbHeader => RdbHeaderRound(s, hint)
    case RecvRdbBody => RdbBodyRound(s, hint)
    case RecvBacklogHeader => BacklogHeaderRound(s)
    case RecvBacklogBody => BacklogBodyRound(s)
    case Streaming => Drain(s)
    case Init => Round(s, false)
    case Error => Round(s, false)
  }

  function Rank(st: State): nat {
    match st
    case WaitFullresync => 6
    case RecvRdbHeader => 5
    case RecvRdbBody => 4
    case RecvBacklogHeader => 3
    case RecvBacklogBody => 2
    case Streaming => 1
    case _ => 0
  }

  /** A receiving body state expects at least one byte. */
  predicate Expecting(s: Slave) {
    (s.state == RecvRdbBody ==> s.rdbLeft > 0) && (s.state == RecvBacklogBody ==> s.backlogLeft > 0)
  }

  /** A round that continues has moved to a later state or used up input. */
  ghost predicate Progress(s: Slave, r: Round) {
    && Expecting(r.slave)
    && (r.again ==> (Rank(r.slave.state) < Rank(s.state)
                     || (r.slave.state == s.state && |r.slave.input| < |s.input|)))
  }

  lemma WaitProgress(s: Slave)
    requires s.state == WaitFullresync
    ensures Progress(s, WaitRound(s))
  {
    hide SimpleString, Find, WholeUnsigned;
  }

  lemma RdbHeaderProgress(s: Slave, hint: Walk)
    requires s.state == RecvRdbHeader
    ensures Progress(s, RdbHeaderRound(s, hint))
  {
    hide BulkHeader, LeadingInt, LoadPath;
  }

  lemma RdbBodyProgress(s: Slave, hint: Walk)
    requires s.state == RecvRdbBody && Expecting(s)
    ensures Progress(s, RdbBodyRound(s, hint))
  {
    hide LoadPath;
  }

  lemma BacklogHeaderProgress(s: Slave)
    requires s.state == RecvBacklogHeader
    ensures Progress(s, BacklogHeaderRound(s))
  {
    hide BulkHeader, LeadingInt;
  }

  lemma BacklogBodyProgress(s: Slave)
    requires s.state == RecvBacklogBody && Expecting(s)
    ensures Progress(s, BacklogBodyRound(s))
  {
    hide ConsumeStream;
  }

  lemma DrainProgress(s: Slave)
    ensures Expecting(Drain(s).slave) || !Expecting(s)
    ensures !Drain(s).again
  {
    hide ConsumeStream;
  }

  lemma IterateProgress(s: Slave, hint: Walk)
    requires Expecting(s)
    ensures Progress(s, Iterate(s, hint))
  {
    hide WaitRound, RdbHeaderRound, RdbBodyRound, BacklogHeaderRound, BacklogBodyRound, Drain;
    match s.state
    case WaitFullresync => WaitProgress(s);
    case RecvRdbHeader => RdbHeaderProgress(s, hint);
    case RecvRdbBody => RdbBodyProgress(s, hint);
    case RecvBacklogHeader => BacklogHeaderProgress(s);
    case RecvBacklogBody => BacklogBodyProgress(s);
    case Streaming => DrainProgress(s);
    case _ =>
  }

  /** OnReadable: rounds until one returns. */
  ghost function Pump(s: Slave, hint: Walk): (t: Slave)
    requires Expecting(s)
    ensures Expecting(t)
    decreases Rank(s.state), |s.input|
  {
    IterateProgress(s, hint);
    var r := Iterate(s, hint);
    if r.again then Pump(r.slave, hint) else r.slave
  }

  // ---- where reads are cut does not matter -------------------------------------------------------------

  function Receive(s: Slave, chunk: Bytes): Slave { s.(input := s.input + chunk) }

  lemma LineStable(d: Bytes, e: Bytes)
    ensures SimpleString(d).Got? ==> SimpleString(d + e) == Got(SimpleString(d).text, SimpleString(d).rest + e)
    ensures SimpleString(d).Broken? ==> SimpleString(d + e).Broken?
    ensures BulkHeader(d).Got? ==> BulkHeader(d + e) == Got(BulkHeader(d).text, BulkHeader(d).rest + e)
    ensures !BulkHeader(d).Broken?
  {
    if Find(d, LF, 0).Some? {
      var i := Find(d, LF, 0).value;
      assert (d + e)[i] == LF;
      var j := Find(d + e, LF, 0).value;
      assert d[j] == LF;
      assert (d + e)[i + 1..] == d[i + 1..] + e;
      assert i >= 1 ==> (d + e)[1..i] == d[1..i];
      assert i >= 2 ==> (d + e)[1..i - 1] == d[1..i - 1];
    }
  }

  /** A body state that has not yet received all its bytes. */
  predicate Partial(s: Slave) {
    (s.state == RecvRdbBody && |s.input| < s.rdbLeft) || (s.state == RecvBacklogBody && |s.input| < s.backlogLeft)
  }

  ghost predicate Extends(r: Round, q: Round, b: Bytes) {
    r.again ==> q == Round(Receive(r.slave, b), true)
  }

  lemma HeaderAppend(s: Slave, b: Bytes, hint: Walk)
    requires s.state == WaitFullresync || s.state == RecvRdbHeader || s.state == RecvBacklogHeader
    ensures Extends(Iterate(s, hint), Iterate(Receive(s, b), hint), b)
  {
    hide SimpleString, BulkHeader, LeadingInt, LoadPath, Find, WholeUnsigned;
    LineStable(s.input, b);
  }

  lemma BodyAppend(s: Slave, b: Bytes, hint: Walk)
    requires s.state == RecvRdbBody || s.state == RecvBacklogBody
    requires Expecting(s) && !Partial(s)
    ensures Extends(Iterate(s, hint), Iterate(Receive(s, b), hint), b)
  {
    hide LoadPath, ConsumeStream;
    var left := if s.state == RecvRdbBody then s.rdbLeft else s.backlogLeft;
    assert (s.input + b)[..left] == s.input[..left];
    assert (s.input + b)[left..] == s.input[left..] + b;
  }

  lemma TakenInTwo(d: Bytes, b: Bytes, left: nat)
    requires |d| < left
    ensures var take, more := Least(|d| + |b|, left), Least(|b|, left - |d|);
            && take == |d| + more
            && (d + b)[..take] == d + b[..more]
            && (d + b)[take..] == b[more..]
  {}

  lemma TakeRdbIs(s: Slave, n: nat, input: Bytes, file: Bytes)
    requires n == Least(|s.input|, s.rdbLeft) && input == s.input[n..] && file == FileOf(s) + s.input[..n]
    ensures TakeRdb(s) == WithRdb(s, input, file, s.rdbLeft - n)
    ensures FileOf(TakeRdb(s)) == file
  {}

  /** Bytes of an unfinished body taken in two rounds are as good as taken in one. */
  lemma PartialRdb(s: Slave, b: Bytes)
    requires s.state == RecvRdbBody && Partial(s)
    ensures TakeRdb(s).input == [] && TakeRdb(s).rdbLeft > 0
    ensures TakeRdb(Receive(TakeRdb(s), b)) == TakeRdb(Receive(s, b))
  {
    hide TakeRdb, FileOf;
    var more := Least(|b|, s.rdbLeft - |s.input|);
    var file := FileOf(s) + s.input + b[..more];
    TakenInTwo(s.input, b, s.rdbLeft);
    assert file == FileOf(s) + (s.input + b[..more]);
    TakeRdbIs(s, |s.input|, [], FileOf(s) + s.input);
    var t := Receive(TakeRdb(s), b);
    FileKept(TakeRdb(s), b);
    FileKept(s, b);
    assert t.input == b;
    TakeRdbIs(t, more, b[more..], file);
    TakeRdbIs(Receive(s, b), |s.input| + more, b[more..], file);
  }

  lemma FileKept(s: Slave, b: Bytes)
    ensures FileOf(Receive(s, b)) == FileOf(s)
  {}

  lemma PartialBacklog(s: Slave, b: Bytes)
    requires s.state == RecvBacklogBody && Partial(s)
    ensures TakeBacklog(s).input == [] && TakeBacklog(s).backlogLeft > 0
    ensures TakeBacklog(Receive(TakeBacklog(s), b)) == TakeBacklog(Receive(s, b))
  {
    TakenInTwo(s.input, b, s.backlogLeft);
    assert s.input[..|s.input|] == s.input;
    assert [] + b == b;
    var more := Least(|b|, s.backlogLeft - |s.input|);
    assert s.backlog + (s.input + b[..more]) == (s.backlog + s.input) + b[..more];
  }

  lemma PartialAppend(s: Slave, b: Bytes, hint: Walk)
    requires Expecting(s) && Partial(s) && s.input != [] && b != []
    ensures var r := Iterate(s, hint);
            && r.again && r.slave.input == [] && r.slave.state == s.state
            && Iterate(Receive(r.slave, b), hint) == Iterate(Receive(s, b), hint)
  {
    hide FinishRdb, ApplyBacklog, TakeRdb, TakeBacklog;
    if s.state == RecvRdbBody {
      PartialRdb(s, b);
      TakeKeeps(s);
    } else {
      PartialBacklog(s, b);
      TakeKeeps(s);
    }
  }

  lemma TakeKeeps(s: Slave)
    ensures TakeRdb(s).state == s.state && TakeBacklog(s).state == s.state
  {}

  /** Same outcome up to how far a failing read had counted. */
  ghost predicate SameOutcome(two: Slave, one: Slave) {
    && (two.state == Error <==> one.state == Error)
    && two.db == one.db
    && one.offset <= two.offset
    && (two.state != Error ==> two == one)
  }

  lemma DrainAppend(s: Slave, b: Bytes)
    requires s.state == Streaming && Drain(s).slave.state == Streaming
    ensures SameOutcome(Drain(Receive(Drain(s).slave, b)).slave, Drain(Receive(s, b)).slave)
  {
    hide ConsumeStream;
    var a := s.stream + s.input;
    var ra := ConsumeStream(s.db, a);
    ConsumeAppend(s.db, a, b);
    var t := Receive(Drain(s).slave, b);
    assert t.stream + t.input == a[ra.used..] + b;
    assert Receive(s, b).stream + Receive(s, b).input == a + b;
    DrainedTwice(s, b, a, ra, ConsumeStream(ra.db, a[ra.used..] + b), ConsumeStream(s.db, a + b));
  }

  lemma DrainedTwice(s: Slave, b: Bytes, a: Bytes, ra: Consumed, rb: Consumed, r: Consumed)
    requires s.state == Streaming && ra.ok && ra.used <= |a| && rb.used <= |a| - ra.used + |b|
    requires r == Consumed(rb.ok, rb.db, if rb.ok then ra.used + rb.used else 0)
    ensures var t := Receive(Drained(s, a, ra).slave, b);
            SameOutcome(Drained(t, a[ra.used..] + b, rb).slave, Drained(Receive(s, b), a + b, r).slave)
  {
    if rb.ok {
      assert (a + b)[ra.used + rb.used..] == (a[ra.used..] + b)[rb.used..];
    }
  }

  /** One read in two: OnReadable ends in the same state, with the same data, leftover bytes and
      offset; a failure is a failure with the same data, and only the offset may then be smaller
      when more was read at once. */
  lemma {:induction false} ChunkIndependence(s: Slave, b: Bytes, hint: Walk)
    requires Expecting(s)
    ensures SameOutcome(Pump(Receive(Pump(s, hint), b), hint), Pump(Receive(s, b), hint))
    decreases Rank(s.state), |s.input|
  {
    hide WaitRound, RdbHeaderRound, RdbBodyRound, BacklogHeaderRound, BacklogBodyRound, Drain;
    IterateProgress(s, hint);
    var r := Iterate(s, hint);
    var t := Receive(s, b);
    if !r.again {
      if r.slave.state == Error {
        FailureStays(s, b, hint);
      } else if s.state == Streaming {
        StreamingPump(s, hint);
        StreamingPump(t, hint);
        StreamingPump(Receive(r.slave, b), hint);
        DrainAppend(s, b);
      } else {
        QuietRound(s, hint);
      }
    } else if Partial(s) {
      if b == [] {
        assert Receive(s, []) == s;
        ChunkIndependence(r.slave, b, hint);
        assert Receive(r.slave, []) == r.slave;
      } else {
        NonEmptyRound(s, hint);
        PartialAppend(s, b, hint);
        NonEmptyRound(r.slave, hint);
        assert Pump(s, hint) == r.slave;
      }
    } else {
      AgainAppend(s, b, hint);
      ChunkIndependence(r.slave, b, hint);
    }
  }

  /** The reads of a connection, one OnReadable each. */
  ghost function Reads(s: Slave, chunks: seq<Bytes>, hint: Walk): (t: Slave)
    requires Expecting(s)
    ensures Expecting(t)
    decreases |chunks|
  {
    if chunks == [] then s
    else Pump(Receive(Reads(s, chunks[..|chunks| - 1], hint), chunks[|chunks| - 1]), hint)
  }

  /** The same for any number of reads: the outcome is that of one read of everything. */
  lemma {:induction false} CutsDoNotMatter(s: Slave, chunks: seq<Bytes>, hint: Walk)
    requires Expecting(s) && chunks != []
    ensures SameOutcome(Reads(s, chunks, hint), Pump(Receive(s, Joined(chunks)), hint))
    decreases |chunks|
  {
    hide Iterate, Pump;
    var n := |chunks| - 1;
    var front, b := chunks[..n], chunks[n];
    if n == 0 {
      assert [] + b == b;
    } else {
      CutsDoNotMatter(s, front, hint);
      var t := Receive(s, Joined(front));
      ChunkIndependence(t, b, hint);
      assert Receive(t, b) == Receive(s, Joined(chunks)) by { assert s.input + Joined(front) + b == s.input + Joined(chunks); }
      if Pump(t, hint).state == Error {
        ErrorStays(Receive(Reads(s, front, hint), b), hint);
        ErrorStays(Receive(Pump(t, hint), b), hint);
      }
    }
  }

  lemma ErrorStays(s: Slave, hint: Walk)
    requires s.state == Error && Expecting(s)
    ensures Pump(s, hint) == s
  {}

  /** A round that fails does so, with the same data, whatever has arrived behind it. */
  ghost predicate SameFailure(r: Round, q: Round) {
    r.slave.state == Error ==> !q.again && q.slave.state == Error && q.slave.db == r.slave.db && q.slave.offset == r.slave.offset
  }

  lemma WaitFailure(s: Slave, b: Bytes)
    ensures SameFailure(WaitRound(s), WaitRound(Receive(s, b))) || s.state == Error
  {
    hide SimpleString, Find, WholeUnsigned;
    LineStable(s.input, b);
  }

  lemma RdbHeaderFailure(s: Slave, b: Bytes, hint: Walk)
    ensures SameFailure(RdbHeaderRound(s, hint), RdbHeaderRound(Receive(s, b), hint)) || s.state == Error
  {
    hide BulkHeader, LeadingInt, LoadPath;
    LineStable(s.input, b);
  }

  lemma BacklogHeaderFailure(s: Slave, b: Bytes)
    ensures SameFailure(BacklogHeaderRound(s), BacklogHeaderRound(Receive(s, b))) || s.state == Error
  {
    hide BulkHeader, LeadingInt;
    LineStable(s.input, b);
  }

  lemma BodyFailure(s: Slave, b: Bytes, hint: Walk)
    requires Expecting(s) && (s.state == RecvRdbBody || s.state == RecvBacklogBody)
    ensures SameFailure(Iterate(s, hint), Iterate(Receive(s, b), hint))
  {
    hide LoadPath, ConsumeStream;
    var left := if s.state == RecvRdbBody then s.rdbLeft else s.backlogLeft;
    if left <= |s.input| {
      assert (s.input + b)[..left] == s.input[..left];
    }
  }

  lemma DrainFailure(s: Slave, b: Bytes)
    requires s.state == Streaming
    ensures SameFailure(Drain(s), Drain(Receive(s, b)))
  {
    hide ConsumeStream;
    var a := s.stream + s.input;
    ConsumeAppend(s.db, a, b);
    assert Receive(s, b).stream + Receive(s, b).input == a + b;
  }

  lemma FailureStays(s: Slave, b: Bytes, hint: Walk)
    requires Expecting(s) && !Iterate(s, hint).again && Iterate(s, hint).slave.state == Error
    ensures SameOutcome(Pump(Receive(Pump(s, hint), b), hint), Pump(Receive(s, b), hint))
  {
    hide WaitRound, RdbHeaderRound, RdbBodyRound, BacklogHeaderRound, BacklogBodyRound, Drain;
    var r := Iterate(s, hint);
    ErrorStays(Receive(r.slave, b), hint);
    match s.state
    case Streaming => DrainFailure(s, b);
    case RecvRdbBody => BodyFailure(s, b, hint);
    case RecvBacklogBody => BodyFailure(s, b, hint);
    case Init =>
    case Error =>
    case WaitFullresync => WaitFailure(s, b);
    case RecvRdbHeader => RdbHeaderFailure(s, b, hint);
    case RecvBacklogHeader => BacklogHeaderFailure(s, b);
  }

  /** Outside streaming, a round that does not continue has failed or done nothing. */
  lemma QuietRound(s: Slave, hint: Walk)
    requires s.state != Streaming && !Iterate(s, hint).again && Iterate(s, hint).slave.state != Error
    ensures Iterate(s, hint).slave == s
  {
    hide SimpleString, BulkHeader, LeadingInt, LoadPath, Find, WholeUnsigned, ConsumeStream;
  }

  lemma StreamingPump(s: Slave, hint: Walk)
    requires s.state == Streaming
    ensures Pump(s, hint) == Drain(s).slave
    ensures Drain(s).slave.state == Error || Drain(s).slave.state == Streaming
  {
    hide ConsumeStream;
  }

  lemma NonEmptyRound(s: Slave, hint: Walk)
    requires Expecting(s) && (s.state == RecvRdbBody || s.state == RecvBacklogBody)
    ensures s.input == [] ==> Iterate(s, hint) == Round(s, false) && Pump(s, hint) == s
  {}

  lemma AgainAppend(s: Slave, b: Bytes, hint: Walk)
    requires Expecting(s) && !Partial(s) && Iterate(s, hint).again
    ensures Iterate(Receive(s, b), hint) == Round(Receive(Iterate(s, hint).slave, b), true)
  {
    if s.state == RecvRdbBody || s.state == RecvBacklogBody {
      BodyAppend(s, b, hint);
    } else if s.state == Streaming {
      DrainProgress(s);
    } else {
      HeaderAppend(s, b, hint);
    }
  }
}
