/** The followed replica's parser: every round keeps its position in the master's reply. */
module ReplicationParser {
  import opened ByteStrings
  import opened Commands
  import opened VNodeStorages
  import opened VNodeIndexes
  import opened Databases
  import opened Frames
  import opened Snapshots
  import opened ReplicationSlaves
  import opened ReplicationMasters
  import opened Replication

  // ---- lines ------------------------------------------------------------------------------------------------

  ghost predicate NoLf(t: Bytes) { forall i | 0 <= i < |t| :: t[i] != LF }

  lemma SimpleStringOf(text: Bytes, x: Bytes)
    requires NoLf(text)
    ensures SimpleString([PLUS] + text + CRLF + x) == Got(text, x)
  {
    var d := [PLUS] + text + CRLF + x;
    var end := |text| + 2;
    assert d[end] == LF && d[end - 1] == CR;
    assert forall i | 0 <= i < end :: d[i] != LF;
    assert Find(d, LF, 0) == Some(end);
    assert d[1..end - 1] == text && d[end + 1..] == x;
  }

  lemma BulkHeaderOf(n: nat, x: Bytes)
    ensures BulkHeader(LengthLine(n) + x) == Got(Decimal(n) + [CR], x)
  {
    var d := LengthLine(n) + x;
    var end := |Decimal(n)| + 2;
    assert d[end] == LF && d[end - 1] == CR;
    assert forall i | 0 <= i < end :: d[i] != LF by {
      assert forall i | 1 <= i < end - 1 :: d[i] == Decimal(n)[i - 1];
    }
    assert Find(d, LF, 0) == Some(end);
    assert d[1..end] == Decimal(n) + [CR] && d[end + 1..] == x;
  }

  lemma LeadingDecimal(n: nat)
    ensures LeadingInt(Decimal(n) + [CR]) == Some(n as int)
  {
    var t := Decimal(n) + [CR];
    assert t[0] == Decimal(n)[0] && IsDigit(Decimal(n)[0]);
    assert SkipBlanks(t) == t;
    DigitsThen(Decimal(n), [CR]);
    ValueOfDecimal(n);
  }

  lemma {:induction false} DigitsThen(a: Bytes, b: Bytes)
    requires AllDigits(a) && (b == [] || !IsDigit(b[0]))
    ensures LeadingDigits(a + b) == a
    decreases |a|
  {
    if a == [] {
      assert a + b == b;
    } else {
      assert (a + b)[1..] == a[1..] + b;
      DigitsThen(a[1..], b);
    }
  }

  /** A line read from the bytes at hand is the line of the whole reply. */
  lemma LineInReply(input: Bytes, rest: Bytes, line: Bytes, text: Bytes, x: Bytes)
    requires input + rest == line + x
    requires SimpleString(input).Got? && SimpleString(line + x) == Got(text, x)
    ensures SimpleString(input).text == text && SimpleString(input).rest + rest == x
  {
    LineStable(input, rest);
  }

  lemma HeaderInReply(input: Bytes, rest: Bytes, n: nat, x: Bytes)
    requires input + rest == LengthLine(n) + x
    requires BulkHeader(input).Got?
    ensures BulkHeader(input).rest + rest == x && LeadingInt(BulkHeader(input).text) == Some(n as int)
  {
    LineStable(input, rest);
    BulkHeaderOf(n, x);
    LeadingDecimal(n);
  }

  // ---- the first line ---------------------------------------------------------------------------------------------

  ghost predicate PlainId(replid: Bytes) {
    replid != [] && forall i | 0 <= i < |replid| :: replid[i] != SPACE && replid[i] != LF && replid[i] != CR
  }

  function FullText(replid: Bytes, offset: nat): Bytes { FULLRESYNC + replid + [SPACE] + Decimal(offset) }

  lemma WholeDecimal(n: nat)
    ensures WholeUnsigned(Decimal(n)) == Some(n)
  {
    var t := Decimal(n);
    assert IsDigit(t[0]);
    assert SkipBlanks(t) == t;
    assert t + [] == t;
    DigitsThen(t, []);
    ValueOfDecimal(n);
  }

  lemma FullTextParses(s: Slave, replid: Bytes, offset: nat)
    requires PlainId(replid)
    ensures HandleSyncReply(s, FullText(replid, offset)) ==
            Round(s.(replid := replid, offset := offset, haveOffset := true, state := RecvRdbHeader), true)
  {
    hide WholeUnsigned;
    var text := FullText(replid, offset);
    var tail := text[|FULLRESYNC|..];
    assert tail == replid + [SPACE] + Decimal(offset);
    assert text[0] != CONTINUE[0];
    assert FULLRESYNC <= text;
    assert tail[|replid|] == SPACE;
    assert Find(tail, SPACE, 0) == Some(|replid|) by {
      assert forall i | 0 <= i < |replid| :: tail[i] == replid[i];
    }
    assert tail[..|replid|] == replid && tail[|replid| + 1..] == Decimal(offset);
    WholeDecimal(offset);
  }

  lemma FullLineIs(replid: Bytes, offset: nat, x: Bytes)
    requires PlainId(replid)
    ensures SimpleString(FullLine(replid, offset) + x) == Got(FullText(replid, offset), x)
  {
    hide SimpleString, Decimal;
    var text := FullText(replid, offset);
    assert NoLf(text) by {
      forall i | 0 <= i < |text| ensures text[i] != LF {
        if i >= 12 + |replid| {
          assert text[i] == Decimal(offset)[i - (12 + |replid|)];
        } else if i >= 11 && i < 11 + |replid| {
          assert text[i] == replid[i - 11];
        }
      }
    }
    SimpleStringOf(text, x);
    assert FullLine(replid, offset) + x == [PLUS] + text + CRLF + x;
  }

  lemma ContinueIs(x: Bytes)
    ensures SimpleString(PLUS_CONTINUE + x) == Got(CONTINUE, x)
  {
    SimpleStringOf(CONTINUE, x);
    assert PLUS_CONTINUE + x == [PLUS] + CONTINUE + CRLF + x;
  }

  // ---- one round, state by state -----------------------------------------------------------------------------------------

  /** A round changed neither the data nor what is remembered about the master. */
  ghost predicate Remembers(s: Slave, t: Slave) {
    t.db == s.db && t.replid == s.replid && t.offset == s.offset && t.haveOffset == s.haveOffset
  }

  ghost predicate ImageSizes(r: Reply) {
    (r.head.FullHead? ==> |r.head.image| >= 96) && (r.head.BrokenHead? ==> r.head.length >= 96)
  }

  lemma WaitKeeps(s: Slave, r: Reply, replid: Bytes, rest: Bytes, log: Bytes)
    requires s.state == WaitFullresync && Pos(s, r, replid, rest) && ReplyOk(r, log) && PlainId(replid)
    ensures var t := WaitRound(s).slave;
            && Pos(t, r, replid, rest)
            && (t.state == RecvRdbHeader ==>
                  (r.head.FullHead? || r.head.BrokenHead?)
                  && t.db == s.db && t.replid == replid && t.offset == r.head.offset && t.haveOffset)
            && (t.state != RecvRdbHeader ==> Remembers(s, t))
            && t.state in {WaitFullresync, RecvRdbHeader, Streaming, Error}
  {
    hide SimpleString, HandleSyncReply, FullLine, LengthLine, PlainId, RunAt, FullText;
    if SimpleString(s.input).Got? {
      match r.head
      case NoHead => assert r.err == s.input + rest;
        NotPlus(s.input);
      case ContinueHead(offset) =>
        ContinueCase(s, r, replid, rest);
      case FullHead(offset, image, backlog) =>
        var x := LengthLine(|image|) + image + Tail(r);
        assert ReplyBytes(replid, r) == FullLine(replid, offset) + x;
        FullCase(s, r, replid, rest, offset, x);
      case BrokenHead(offset, length) =>
        var x := LengthLine(length) + r.err;
        assert ReplyBytes(replid, r) == FullLine(replid, offset) + x;
        FullCase(s, r, replid, rest, offset, x);
    } else {
      NotGot(s);
    }
  }

  lemma NotPlus(d: Bytes)
    requires SimpleString(d).Got?
    ensures d != [] && d[0] == PLUS
  {}

  lemma NotGot(s: Slave)
    requires !SimpleString(s.input).Got?
    ensures var t := WaitRound(s).slave; t == s || (t.state == Error && Remembers(s, t))
  {
    hide SimpleString;
  }

  lemma ContinueReply(s: Slave)
    ensures forall rest :: HandleSyncReply(s.(input := rest), CONTINUE) == Round(s.(input := rest, state := Streaming), true)
  {}

  lemma ContinueCase(s: Slave, r: Reply, replid: Bytes, rest: Bytes)
    requires SimpleString(s.input).Got? && r.head.ContinueHead? && r.err == []
    requires s.input + rest == ReplyBytes(replid, r)
    ensures WaitRound(s).slave == s.(input := SimpleString(s.input).rest, state := Streaming)
    ensures [] + SimpleString(s.input).rest + rest == r.data
  {
    hide SimpleString, HandleSyncReply;
    assert ReplyBytes(replid, r) == PLUS_CONTINUE + r.data;
    ContinueIs(r.data);
    LineInReply(s.input, rest, PLUS_CONTINUE, CONTINUE, r.data);
    ContinueReply(s);
  }

  lemma FullCase(s: Slave, r: Reply, replid: Bytes, rest: Bytes, offset: nat, x: Bytes)
    requires SimpleString(s.input).Got? && PlainId(replid)
    requires s.input + rest == FullLine(replid, offset) + x
    ensures WaitRound(s).slave ==
            s.(input := SimpleString(s.input).rest, replid := replid, offset := offset, haveOffset := true, state := RecvRdbHeader)
    ensures SimpleString(s.input).rest + rest == x
  {
    hide SimpleString, HandleSyncReply, FullLine, PlainId, FullText;
    FullLineIs(replid, offset, x);
    LineInReply(s.input, rest, FullLine(replid, offset), FullText(replid, offset), x);
    FullTextParses(s.(input := SimpleString(s.input).rest), replid, offset);
  }

  lemma RdbHeaderKeeps(s: Slave, r: Reply, replid: Bytes, rest: Bytes, hint: Walk)
    requires s.state == RecvRdbHeader && Pos(s, r, replid, rest) && ImageSizes(r)
    ensures var t := RdbHeaderRound(s, hint).slave;
            Pos(t, r, replid, rest) && Remembers(s, t) && t.state in {RecvRdbHeader, RecvRdbBody, Error}
  {
    hide BulkHeader, LeadingInt, LengthLine, FinishRdb;
    if BulkHeader(s.input).Got? {
      var length := if r.head.FullHead? then |r.head.image| else r.head.length;
      var x := if r.head.FullHead? then r.head.image + Tail(r) else r.err;
      assert s.input + rest == LengthLine(length) + x;
      HeaderInReply(s.input, rest, length, x);
      var t := RdbHeaderRound(s, hint).slave;
      assert FileOf(t) == [] && [] + t.input + rest == x;
    }
  }

  lemma RdbBodyKeeps(s: Slave, r: Reply, replid: Bytes, rest: Bytes, hint: Walk, log: Bytes)
    requires s.state == RecvRdbBody && Expecting(s) && Pos(s, r, replid, rest) && ReplyOk(r, log) && ImageSizes(r)
    ensures var t := RdbBodyRound(s, hint).slave;
            && Pos(t, r, replid, rest)
            && t.replid == s.replid && t.offset == s.offset && t.haveOffset == s.haveOffset
            && t.state in {RecvRdbBody, RecvBacklogHeader, Error}
            && (t.state == RecvRdbBody ==> t.db == s.db)
            && (t.state == RecvBacklogHeader ==> r.head.FullHead? && t.db == LoadPath(r.head.image, s.db, hint).db
                                                 && LoadPath(r.head.image, s.db, hint).ok)
            && (t.state == Error && r.head.FullHead? ==> !LoadPath(r.head.image, s.db, hint).ok)
  {
    hide TakeRdb, LoadPath, Tail, FileOf, RunAt;
    if s.input != [] {
      TakeRdbKeeps(s);
      var t := TakeRdb(s);
      assert FileOf(t) + t.input + rest == FileOf(s) + s.input + rest;
      assert |FileOf(t)| <= |FileOf(t) + t.input + rest|;
      if t.rdbLeft == 0 {
        assert r.head.FullHead?;
        assert FileOf(t) == (FileOf(t) + t.input + rest)[..|FileOf(t)|];
        assert FileOf(t) == (r.head.image + Tail(r))[..|r.head.image|] == r.head.image;
        assert t.input + rest == (r.head.image + Tail(r))[|r.head.image|..] == Tail(r);
      }
    }
  }

  lemma TakeRdbKeeps(s: Slave)
    requires s.input != [] && s.rdbLeft > 0
    ensures var t := TakeRdb(s);
            && FileOf(t) + t.input == FileOf(s) + s.input && |FileOf(t)| + t.rdbLeft == |FileOf(s)| + s.rdbLeft
            && t == s.(input := t.input, tmp := t.tmp, rdbOpen := true, rdbLeft := t.rdbLeft)
            && t.tmp == Some(FileOf(t))
  {}

  lemma BacklogHeaderKeeps(s: Slave, r: Reply, replid: Bytes, rest: Bytes, log: Bytes)
    requires s.state == RecvBacklogHeader && Pos(s, r, replid, rest) && ReplyOk(r, log)
    ensures var t := BacklogHeaderRound(s).slave;
            && Pos(t, r, replid, rest) && Remembers(s, t)
            && t.state in {RecvBacklogHeader, RecvBacklogBody, Streaming, Error}
  {
    hide BulkHeader, LeadingInt, LengthLine, RunAt;
    if BulkHeader(s.input).Got? {
      NotDollar(s.input);
      assert (s.input + rest)[0] == DOLLAR;
      assert r.head.backlog.Some?;
      HeaderInReply(s.input, rest, r.head.backlog.value, r.data);
      var t := BacklogHeaderRound(s).slave;
      assert [] + t.input + rest == r.data;
    } else {
      assert BacklogHeaderRound(s).slave == s || BacklogHeaderRound(s) == Fail(s);
    }
  }

  lemma NotDollar(d: Bytes)
    requires BulkHeader(d).Got?
    ensures d != [] && d[0] == DOLLAR
  {}

  /** What applying the received backlog to s leaves behind, in t. */
  ghost predicate AppliedBacklog(s: Slave, t: Slave, backlog: Bytes) {
    var c := ConsumeStream(s.db, backlog);
    && t.db == c.db
    && (t.state == Streaming <==> c.ok && c.used == |backlog|)
    && t.offset == s.offset + (if t.state == Streaming then |backlog| else 0)
  }

  /** The backlog is applied only when all of it has arrived, and then it is exactly what was sent. */
  lemma BacklogBodyKeeps(s: Slave, r: Reply, replid: Bytes, rest: Bytes, log: Bytes)
    requires s.state == RecvBacklogBody && Expecting(s) && Pos(s, r, replid, rest) && ReplyOk(r, log)
    ensures var t := BacklogBodyRound(s).slave;
            && Pos(t, r, replid, rest) && t.replid == s.replid && t.haveOffset
            && t.state in {RecvBacklogBody, Streaming, Error}
            && (t.state == RecvBacklogBody ==> Remembers(s, t))
            && (t.state != RecvBacklogBody ==> AppliedBacklog(s, t, r.data[..r.head.backlog.value]))
  {
    hide TakeBacklog, ConsumeStream, RunAt, ApplyBacklog, LengthLine, FullLine, ReplyBytes, FileOf, Tail;
    if s.input != [] {
      TakeBacklogKeeps(s);
      var t := TakeBacklog(s);
      assert t.backlog + t.input + rest == s.backlog + s.input + rest;
      if t.backlogLeft == 0 {
        var n := r.head.backlog.value;
        assert t.backlog == r.data[..n] && t.input + rest == r.data[n..];
        ApplyBacklogIs(t);
        assert [] + t.input + rest == t.input + rest;
      }
    }
  }

  lemma ApplyBacklogIs(s: Slave)
    ensures var t := ApplyBacklog(s).slave;
            && AppliedBacklog(s, t, s.backlog) && t.replid == s.replid && (s.haveOffset ==> t.haveOffset)
            && t.input == s.input && t.stream == s.stream && t.state in {Streaming, Error}
    requires s.state != Streaming
  {
    hide ConsumeStream;
  }

  lemma TakeBacklogKeeps(s: Slave)
    requires s.input != [] && s.backlogLeft > 0
    ensures var t := TakeBacklog(s);
            && t.backlog + t.input == s.backlog + s.input
            && |t.backlog| + t.backlogLeft == |s.backlog| + s.backlogLeft
            && t == s.(input := t.input, backlog := t.backlog, backlogLeft := t.backlogLeft)
  {}

  lemma DrainKeeps(s: Slave, r: Reply, replid: Bytes, rest: Bytes)
    requires s.state == Streaming && Pos(s, r, replid, rest)
    ensures var t := Drain(s).slave;
            var c := ConsumeStream(s.db, s.stream + s.input);
            && Pos(t, r, replid, rest) && t.replid == s.replid && t.haveOffset
            && t.state == (if c.ok then Streaming else Error)
            && t.db == c.db && t.offset == s.offset + (if c.ok then c.used else 0)
            && (c.ok ==> t.stream == (s.stream + s.input)[c.used..] && t.input == [])
  {
    hide ConsumeStream;
    var bytes := s.stream + s.input;
    var c := ConsumeStream(s.db, bytes);
    if c.ok {
      var o := s.offset - r.head.offset;
      assert |bytes| + |rest| == |r.data| - o;
      assert bytes[c.used..] + [] + rest == (bytes + rest)[c.used..];
      assert r.data[o..][c.used..] == r.data[o + c.used..];
    }
  }

  // ---- what the stream does to the data ------------------------------------------------------------------------------------

  /** Consuming a prefix of the encoded feed runs exactly its whole commands. */
  lemma ConsumeFed(db: Db, cs: seq<Cmd>, n: nat)
    requires AllKeyed(cs) && n <= |EncodeAll(cs)|
    ensures var j := WholeFrames(cs, n);
            var q := Run(db, cs[..j]);
            ConsumeStream(db, EncodeAll(cs)[..n]) == Consumed(q.ok, q.db, if q.ok then |EncodeAll(cs[..j])| else 0)
  {
    hide SplitOf, RunTokens, Run, EncodeAll;
    SplitPrefix(cs, n);
    RunTokensOf(db, cs[..WholeFrames(cs, n)]);
  }
}
