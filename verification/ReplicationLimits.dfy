/** Where replication's guarantees end: how a link fails, and what a replica holds when a write
    escaped the feed or its snapshot was forked before its start offset was taken. */
module ReplicationLimits {
  import opened ByteStrings
  import opened Commands
  import opened Views
  import opened VNodeStorages
  import opened VNodeIndexes
  import opened Databases
  import opened Frames
  import opened Snapshots
  import opened ReplicationSlaves
  import opened ReplicationMasters
  import opened Replication
  import opened ReplicationParser
  import opened ReplicationInvariants
  import opened ReplicationTheorems
  import opened ReplicationConvergence

  // ---- positions and failures -----------------------------------------------------------------------------

  /** While streaming, the recorded offset and the bytes not yet applied make up the position in the
      master's log of everything received. */
  lemma StreamPosition(s: Sys)
    requires Inv(s) && s.link.Some? && s.sl.state == Streaming
    ensures var l, h := s.link.value, Read(s).head;
            && (h.ContinueHead? || h.FullHead?)
            && s.sl.offset + |s.sl.stream + s.sl.input| + |HeadBytes(s.m.replid, h)| == h.offset + l.got
  {
    ReadOk(s);
    hide GapFree, MasterInv, LinkInv, LogInv, SlaveInv, HeadOk, HeadBytes;
    Received(s);
    StreamHead(s.sl, Read(s), s.m.replid, Rest(s));
    assert Read(s).err == [] by { StreamErr(s.sl, Read(s), s.m.replid, Rest(s), s.m.log); }
  }

  lemma Received(s: Sys)
    requires LinkInv(s) && s.link.Some?
    ensures s.link.value.got + |Rest(s)| == |BytesOn(s, s.link.value.fd)|
  {
    hide Pos, ReplyBytes;
  }

  lemma StreamErr(sl: Slave, r: Reply, replid: Bytes, rest: Bytes, log: Bytes)
    requires Pos(sl, r, replid, rest) && sl.state == Streaming && ReplyOk(r, log)
    ensures r.err == []
  {
    hide RunAt;
  }

  /** Why a link can fail: the master sent an error, the snapshot does not load, or a command of
      the feed cannot be applied to the replica's data. */
  ghost predicate FailsBecause(s: Sys, fd: Fd, r: Reply) {
    || r.err != []
    || (s.sl.state == RecvRdbBody && fd in s.sent && !Sound(s.sent[fd].snap))
    || (s.sl.state in {RecvBacklogBody, Streaming} && s.at.k <= |s.fed|
        && exists j: nat :: j <= |s.fed| - s.at.k && !Run(s.sl.db, s.fed[s.at.k..][..j]).ok)
  }

  lemma FailsOnlyWhen(s: Sys, hint: Walk)
    requires Inv(s) && s.link.Some? && s.sl.state != Error && Iterate(s.sl, hint).slave.state == Error
    ensures FailsBecause(s, s.link.value.fd, Read(s))
  {
    hide GapFree, MasterInv, LogInv, LinkInv, SlaveInv, Pos, Iterate, HeadOk, Sound, Run, ReplyOk;
    if Read(s).err == [] {
      match s.sl.state
      case RecvRdbBody => BodyFails(s, hint);
      case RecvBacklogBody => BacklogFails(s, hint);
      case Streaming => StreamFails(s, hint);
      case _ => HeaderFails(s, hint);
    }
  }

  lemma HeaderFails(s: Sys, hint: Walk)
    requires Inv(s) && s.link.Some? && Read(s).err == [] && s.sl.state !in {RecvRdbBody, RecvBacklogBody, Streaming, Error}
    ensures Iterate(s.sl, hint).slave.state != Error
  {
    hide GapFree, MasterInv, LogInv, SlaveInv, Pos, HeadOk, LinkInv, WaitRound, RdbHeaderRound, BacklogHeaderRound, ReplyOk;
    ReadOk(s);
    match s.sl.state
    case WaitFullresync => WaitSound(s.sl, Read(s), s.m.replid, Rest(s), s.m.log);
    case RecvRdbHeader => HeaderSound(s.sl, Read(s), s.m.replid, Rest(s), hint, s.m.log);
    case RecvBacklogHeader => HeaderSound(s.sl, Read(s), s.m.replid, Rest(s), hint, s.m.log);
    case _ =>
  }

  lemma FirstByte(r: Reply, replid: Bytes, log: Bytes)
    requires r.err == [] && ReplyOk(r, log)
    ensures if r.head.NoHead? then ReplyBytes(replid, r) == [] else ReplyBytes(replid, r) != [] && ReplyBytes(replid, r)[0] == PLUS
  {
    hide LengthLine, RunAt;
  }

  lemma NotBroken(d: Bytes, rest: Bytes)
    requires d + rest == [] || (d + rest != [] && (d + rest)[0] == PLUS)
    ensures !SimpleString(d).Broken?
  {
    assert d != [] ==> d[0] == (d + rest)[0];
  }

  lemma WaitSound(sl: Slave, r: Reply, replid: Bytes, rest: Bytes, log: Bytes)
    requires Pos(sl, r, replid, rest) && ReplyOk(r, log) && PlainId(replid) && r.err == [] && sl.state == WaitFullresync
    ensures WaitRound(sl).slave.state != Error
  {
    hide SimpleString, HandleSyncReply, FullLine, LengthLine, PlainId, FullText, RunAt;
    FirstByte(r, replid, log);
    NotBroken(sl.input, rest);
    if SimpleString(sl.input).Got? {
      match r.head
      case NoHead => NotPlus(sl.input);
      case ContinueHead(_) =>
        assert ReplyBytes(replid, r) == PLUS_CONTINUE + r.data;
        ContinueIs(r.data);
        LineInReply(sl.input, rest, PLUS_CONTINUE, CONTINUE, r.data);
        ContinueReply(sl);
      case FullHead(offset, image, _) =>
        var x := LengthLine(|image|) + image + Tail(r);
        assert ReplyBytes(replid, r) == FullLine(replid, offset) + x;
        FullCase(sl, r, replid, rest, offset, x);
      case BrokenHead(_, _) =>
    }
  }

  lemma HeaderSound(sl: Slave, r: Reply, replid: Bytes, rest: Bytes, hint: Walk, log: Bytes)
    requires Pos(sl, r, replid, rest) && ReplyOk(r, log) && ImageSizes(r) && r.err == []
    requires sl.state == RecvRdbHeader || sl.state == RecvBacklogHeader
    ensures Iterate(sl, hint).slave.state != Error
  {
    hide BulkHeader, LengthLine, LeadingInt, FinishRdb, RunAt;
    BulkNeverBroken(sl.input);
    if BulkHeader(sl.input).Got? {
      NotDollar(sl.input);
      if sl.state == RecvRdbHeader {
        assert sl.input + rest == LengthLine(|r.head.image|) + (r.head.image + Tail(r));
        HeaderInReply(sl.input, rest, |r.head.image|, r.head.image + Tail(r));
      } else {
        assert (sl.input + rest)[0] == DOLLAR;
        HeaderInReply(sl.input, rest, r.head.backlog.value, r.data);
      }
    }
  }

  lemma BulkNeverBroken(d: Bytes)
    ensures !BulkHeader(d).Broken?
  {}

  lemma BodyFails(s: Sys, hint: Walk)
    requires Inv(s) && s.link.Some? && Read(s).err == [] && s.sl.state == RecvRdbBody && Iterate(s.sl, hint).slave.state == Error
    ensures Read(s).head.FullHead? && s.link.value.fd in s.sent && !Sound(s.sent[s.link.value.fd].snap)
  {
    hide GapFree, MasterInv, LogInv, SlaveInv, Pos, LinkInv, RdbBodyRound, ViewOf, Coherent, Image, Sound, Effects, LoadPath;
    ReadOk(s);
    assert Read(s).head.FullHead? by { WholeHead(s.sl, Read(s), s.m.replid, Rest(s), s.m.log); }
    RdbBodyKeeps(s.sl, Read(s), s.m.replid, Rest(s), hint, s.m.log);
    var sn := s.sent[s.link.value.fd].snap;
    assert Coherent(sn.db.index);
    if Sound(sn) {
      LoadsSnapshot(sn, s.sl.db, hint);
    }
  }

  lemma WholeHead(sl: Slave, r: Reply, replid: Bytes, rest: Bytes, log: Bytes)
    requires Pos(sl, r, replid, rest) && ReplyOk(r, log) && r.err == [] && sl.state == RecvRdbBody
    ensures r.head.FullHead?
  {
    hide RunAt;
  }

  lemma BacklogFails(s: Sys, hint: Walk)
    requires Inv(s) && s.link.Some? && s.sl.state == RecvBacklogBody && Iterate(s.sl, hint).slave.state == Error
    ensures s.at.k <= |s.fed| && exists j: nat :: j <= |s.fed| - s.at.k && !Run(s.sl.db, s.fed[s.at.k..][..j]).ok
  {
    hide GapFree, MasterInv, LogInv, Pos, LinkInv, BacklogBodyRound, ViewOf, Coherent, Effects, Run, ConsumeStream, LoadedOk,
      HeadOk, ReplyOk, WholeFrames;
    ReadOk(s);
    BodyHead(s.sl, Read(s), s.m.replid, Rest(s), s.m.log);
    OffsetKnown(s.sl, Read(s), s.m.replid, Rest(s));
    BacklogBodyKeeps(s.sl, Read(s), s.m.replid, Rest(s), s.m.log);
    var n := Read(s).head.backlog.value;
    BacklogUsedUp(s, n);
    var cs := s.fed[s.at.k..];
    assert !Run(s.sl.db, cs[..WholeFrames(cs, n)]).ok;
  }

  lemma StreamFails(s: Sys, hint: Walk)
    requires Inv(s) && s.link.Some? && s.sl.state == Streaming && Iterate(s.sl, hint).slave.state == Error
    ensures s.at.k <= |s.fed| && exists j: nat :: j <= |s.fed| - s.at.k && !Run(s.sl.db, s.fed[s.at.k..][..j]).ok
  {
    hide GapFree, LogInv, MasterInv, LinkInv, SlaveInv, Drain, Run, ConsumeStream, Iterate;
    IterateStreams(s.sl, hint);
    StreamedBytes(s);
    DrainOutcome(s.sl);
    Rejected(s, s.sl.stream + s.sl.input);
  }

  /** Feed bytes that cannot be consumed hold a command that cannot be applied. */
  lemma Rejected(s: Sys, bytes: Bytes)
    requires LogInv(s) && SlaveInv(s) && Ours(s) && s.sl.offset + |bytes| <= |s.m.log|
    requires bytes == s.m.log[s.sl.offset..s.sl.offset + |bytes|] && !ConsumeStream(s.sl.db, bytes).ok
    ensures s.at.k <= |s.fed| && exists j: nat :: j <= |s.fed| - s.at.k && !Run(s.sl.db, s.fed[s.at.k..][..j]).ok
  {
    KnownId(s);
    hide LogInv, SlaveInv, Run, ConsumeStream, EncodeAll;
    var cs := s.fed[s.at.k..];
    FedPrefix(s, s.at.k, bytes);
    ConsumeFed(s.sl.db, cs, |bytes|);
    assert !Run(s.sl.db, cs[..WholeFrames(cs, |bytes|)]).ok;
  }

  // ---- what +CONTINUE leads to --------------------------------------------------------------------------------

  /** t differs from s only in the connections and in how far the replica has read on fd. */
  ghost predicate Rejoining(s: Sys, t: Sys, fd: Fd, got: nat, asked: bool) {
    && t.db == s.db && t.fed == s.fed && t.epoch == s.epoch && t.at == s.at
    && t.m.log == s.m.log && t.m.base == s.m.base && t.m.replid == s.m.replid
    && t.sl.db == s.sl.db && t.sl.offset == s.sl.offset && t.sl.haveOffset == s.sl.haveOffset && t.sl.replid == s.sl.replid
    && t.sl.stream == [] && t.link == Some(Link(fd, got, asked))
  }

  ghost predicate Granted(t: Sys, fd: Fd) {
    && t.sl.offset <= |t.m.log|
    && fd in t.m.out && t.m.out[fd] == Reply(ContinueHead(t.sl.offset), t.m.log[t.sl.offset..], [])
    && fd in t.m.slaves && t.m.slaves[fd] == Peer(Synced, t.sl.offset)
  }

  lemma Connected(s: Sys, fd: Fd)
    requires Inv(s) && s.link.None? && fd !in s.m.out
    ensures s.m.base <= |s.m.log| && Enabled(s, SlaveConnects(fd))
    ensures var t := Step(s, SlaveConnects(fd));
            && Rejoining(s, t, fd, 0, false) && fd in t.m.conns && fd in t.m.out && t.m.out[fd] == SILENT
            && t.sl.state == WaitFullresync && t.sl.input == []
  {
    hide MasterInv, LinkInv, LogInv, SlaveInv;
  }

  lemma AsksIs(s: Sys, fork: Option<Orders>)
    requires Enabled(s, SlaveAsks(fork)) && s.m.base <= |s.m.log|
    ensures Step(s, SlaveAsks(fork)) == AskStep(s, fork)
  {
    hide AskStep, ForkFits;
  }

  lemma RoundIs(s: Sys, hint: Walk)
    requires s.link.Some? && s.m.base <= |s.m.log|
    ensures Enabled(s, SlaveRound(hint)) && Step(s, SlaveRound(hint)) == RoundStep(s, hint)
  {
    hide RoundStep;
  }

  lemma KnownId(s: Sys)
    requires SlaveInv(s) && LogInv(s) && Ours(s)
    ensures s.sl.replid == s.m.replid && s.m.replid != [] && s.m.replid != [63]
    ensures s.at.k <= |s.fed| && s.sl.offset == Off(s.fed, s.at.k)
  {
    hide LoadedOk, Coherent, ViewOf, Effects, EncodeAll;
  }

  lemma Asked(s: Sys, fd: Fd)
    requires LogInv(s) && SlaveInv(s) && s.link == Some(Link(fd, 0, false)) && fd in s.m.conns
    requires Ours(s) && Retains(s.m, s.sl.offset) && s.sl.stream == []
    ensures Enabled(s, SlaveAsks(None))
    ensures var t := AskStep(s, None);
            Rejoining(s, t, fd, 0, true) && Granted(t, fd) && t.sl == s.sl
  {
    KnownId(s);
    hide LogInv, SlaveInv, OnPsync, Retains, Registered, Started;
    var u := s.(link := Some(Link(fd, 0, true)));
    assert Continues(u.m, fd, u.sl.replid, u.sl.offset);
    PsyncIsOnPsync(u, fd, u.sl.replid, u.sl.offset, None);
    ContinuedOut(u.m, fd, u.sl.replid, u.sl.offset, ForkFailed);
    ContinuedPeer(u.m, fd, u.sl.replid, u.sl.offset, ForkFailed);
  }

  lemma ContinuedPeer(m: Master, fd: Fd, replid: Bytes, offset: int, fork: Fork)
    requires Continues(m, fd, replid, offset)
    ensures var n := OnPsync(m, fd, replid, offset, fork);
            n.base == m.base && fd in n.slaves && n.slaves[fd] == Peer(Synced, offset) && offset <= |n.log|
  {}

  lemma ReadAll(s: Sys, fd: Fd)
    requires s.m.base <= |s.m.log|
    requires s.link == Some(Link(fd, 0, true)) && Granted(s, fd) && fd in s.m.out && s.sl.stream == []
    requires s.sl.state == WaitFullresync && s.sl.input == []
    ensures Enabled(s, SlaveReceives(|BytesOn(s, fd)|))
    ensures var n := |BytesOn(s, fd)|;
            var t := Step(s, SlaveReceives(n));
            && Rejoining(s, t, fd, n, true) && Granted(t, fd) && t.m == s.m
            && t.sl == s.sl.(input := PLUS_CONTINUE + s.m.log[s.sl.offset..])
  {
    var bytes := BytesOn(s, fd);
    assert bytes == PLUS_CONTINUE + s.m.log[s.sl.offset..];
    assert [] + bytes[0..|bytes|] == bytes;
  }

  lemma ReadsContinue(s: Sys, hint: Walk, fd: Fd, got: nat, rest: Bytes)
    requires SlaveInv(s) && s.link == Some(Link(fd, got, true)) && s.sl.stream == []
    requires s.sl.state == WaitFullresync && s.sl.input == PLUS_CONTINUE + rest
    ensures var t := RoundStep(s, hint);
            Rejoining(s, t, fd, got, true) && t.m == s.m && t.sl == s.sl.(input := rest, state := Streaming)
  {
    hide SlaveInv, HandleSyncReply, SimpleString, RoundStep;
    ContinueIs(rest);
    ContinueReply(s.sl);
    PlainRound(s, hint);
  }

  /** Consuming the whole feed from the recorded offset on runs the commands from there on. */
  lemma ConsumesRest(s: Sys)
    requires LogInv(s) && SlaveInv(s) && Ours(s)
    ensures s.at.k <= |s.fed| && s.sl.offset <= |s.m.log|
    ensures var q := Run(s.sl.db, s.fed[s.at.k..]);
            var bytes := s.m.log[s.sl.offset..];
            ConsumeStream(s.sl.db, bytes) == Consumed(q.ok, q.db, if q.ok then |bytes| else 0)
  {
    KnownId(s);
    LogSuffix(s, s.at.k);
    hide LogInv, SlaveInv, ConsumeStream, Run, EncodeAll, Off;
    var cs := s.fed[s.at.k..];
    var bytes := s.m.log[s.sl.offset..];
    ConsumeFed(s.sl.db, cs, |bytes|);
    assert bytes[..|bytes|] == bytes;
    assert cs[..|cs|] == cs;
    WholeFramesExact(cs, |cs|);
  }

  lemma LogSuffix(s: Sys, k: nat)
    requires LogInv(s) && k <= |s.fed|
    ensures Off(s.fed, k) <= |s.m.log| && s.m.log[Off(s.fed, k)..] == EncodeAll(s.fed[k..])
    ensures AllKeyed(s.fed[k..])
  {
    hide ViewOf, Coherent, Effects, EncodeAll;
    OffRest(s.fed, k);
    FedPrefix(s, k, []);
  }

  lemma Drains(s: Sys, hint: Walk, fd: Fd, got: nat)
    requires LogInv(s) && SlaveInv(s) && s.link == Some(Link(fd, got, true)) && s.sl.stream == [] && Ours(s)
    requires s.sl.offset <= |s.m.log| && s.sl.state == Streaming && s.sl.input == s.m.log[s.sl.offset..]
    ensures s.at.k <= |s.fed|
    ensures var t := RoundStep(s, hint);
            var q := Run(s.sl.db, s.fed[s.at.k..]);
            && t.db == s.db && t.m == s.m && t.link == s.link
            && t.sl.db == q.db && t.sl.state == (if q.ok then Streaming else Error)
            && (q.ok ==> t.sl.stream == [] && t.sl.input == [] && t.sl.offset == |s.m.log|)
  {
    hide LogInv, SlaveInv, RoundStep, Run, ConsumeStream;
    ConsumesRest(s);
    PlainRound(s, hint);
    assert [] + s.sl.input == s.sl.input;
  }

  /** The run of a replica that reconnects and is granted +CONTINUE, up to having read everything. */
  lemma Rejoins(s: Sys, fd: Fd, hint: Walk) returns (ss: seq<Sys>, es: seq<Event>)
    requires Inv(s) && s.link.None? && fd !in s.m.out && Ours(s) && Retains(s.m, s.sl.offset)
    ensures |es| == 5 && Steps(ss, es) && ss[0] == s && s.at.k <= |s.fed|
    ensures var q := Run(s.sl.db, s.fed[s.at.k..]);
            && ss[5].db == s.db && ss[5].m.log == s.m.log && ss[5].sl.db == q.db
            && ss[5].sl.state == (if q.ok then Streaming else Error)
            && (q.ok ==> Settled(ss[5], hint) && ss[5].sl.offset == |s.m.log|)
  {
    hide LogInv, SlaveInv, MasterInv, LinkInv, GapFree, Step, Enabled, ViewOf, Run, BytesOn, Iterate, Retains, Granted,
      RoundStep, AskStep;
    KnownId(s);
    Connected(s, fd);
    var t1 := Step(s, SlaveConnects(fd));
    StepKeeps(s, SlaveConnects(fd));
    SameRetained(s.m, t1.m, s.sl.offset);
    Asked(t1, fd);
    var t2 := Step(t1, SlaveAsks(None));
    StepKeeps(t1, SlaveAsks(None));
    AsksIs(t1, None);
    GrantedOffset(t2, fd);
    var n := |BytesOn(t2, fd)|;
    ReadAll(t2, fd);
    var t3 := Step(t2, SlaveReceives(n));
    assert BytesOn(t3, fd) == BytesOn(t2, fd) by { SameBytes(t2, t3, fd); }
    StepKeeps(t2, SlaveReceives(n));
    GrantedOffset(t3, fd);
    ReadsContinue(t3, hint, fd, n, t3.m.log[t3.sl.offset..]);
    RoundIs(t3, hint);
    var t4 := Step(t3, SlaveRound(hint));
    StepKeeps(t3, SlaveRound(hint));
    GapBase(t4.m);
    Drains(t4, hint, fd, n);
    RoundIs(t4, hint);
    var t5 := Step(t4, SlaveRound(hint));
    ss, es := [s, t1, t2, t3, t4, t5],
              [SlaveConnects(fd), SlaveAsks(None), SlaveReceives(n), SlaveRound(hint), SlaveRound(hint)];
    GrantedSettles(t3, t5, fd, n, hint);
  }

  lemma SameRetained(m: Master, n: Master, offset: nat)
    requires Retains(m, offset) && n.log == m.log && n.base == m.base
    ensures Retains(n, offset)
  {}

  lemma GrantedOffset(t: Sys, fd: Fd)
    requires Granted(t, fd)
    ensures t.sl.offset <= |t.m.log| && fd in t.m.out
  {}

  lemma SameBytes(s: Sys, t: Sys, fd: Fd)
    requires fd in s.m.out && t.m == s.m
    ensures BytesOn(t, fd) == BytesOn(s, fd)
  {}

  lemma GrantedSettles(s: Sys, t: Sys, fd: Fd, n: nat, hint: Walk)
    requires Granted(s, fd) && fd in s.m.out && n == |BytesOn(s, fd)| && t.m == s.m && t.link == Some(Link(fd, n, true))
    ensures BytesOn(t, fd) == BytesOn(s, fd)
    ensures t.sl.state == Streaming && t.sl.stream == [] && t.sl.input == [] ==> Settled(t, hint)
  {
    hide ReplyBytes;
    if t.sl.state == Streaming && t.sl.stream == [] && t.sl.input == [] {
      EmptySplit();
      assert [] + t.sl.input == [];
    }
  }

  /** +CONTINUE is decided on the offset alone. What the replica shows afterwards is the feed since
      that offset on top of what it had: the master's data exactly if that is what the feed makes of it. */
  lemma ContinueShows(s: Sys, fd: Fd, hint: Walk) returns (ss: seq<Sys>, es: seq<Event>)
    requires Inv(s) && s.link.None? && fd !in s.m.out && Ours(s) && Retains(s.m, s.sl.offset)
    requires Coherent(s.sl.db.index) && s.at.k <= |s.fed| && Run(s.sl.db, s.fed[s.at.k..]).ok
    ensures |es| == 5 && Steps(ss, es) && ss[0] == s && Settled(ss[5], hint) && ss[5].sl.state == Streaming
    ensures ss[5].sl.offset == |ss[5].m.log|
    ensures ss[5].db == s.db && ViewOf(ss[5].sl.db) == Effects(ViewOf(s.sl.db), s.fed[s.at.k..])
  {
    hide Inv, Steps, ViewOf, Run, Settled, Retains, Effects, Coherent;
    ss, es := Rejoins(s, fd, hint);
    var cs := s.fed[s.at.k..];
    RunShows(s.sl.db, cs);
    assert cs[..|cs|] == cs;
  }

  // ---- a write that escaped the feed ------------------------------------------------------------------------------

  /** Missing one write shows unless a later command overwrites its place or it changed nothing. */
  lemma MissedWrite(v: View, c: Cmd, log: seq<Cmd>)
    ensures Effects(v, log) == Effects(Effect(v, c), log)
            <==> PlaceOf(c) in Places(log) || At(v, PlaceOf(c)) == Left(c)
  {
    hide At, Effects, Effect, Places, PlaceOf, Left;
    SameAfterLog(v, Effect(v, c), log);
    forall p ensures At(Effect(v, c), p) == if p == PlaceOf(c) then Left(c) else At(v, p) {
      EffectAt(v, c, p);
    }
  }

  /** From every state in which the only replica is in step: it loses its link, a write finds nobody
      registered, the replica reconnects. It is granted +CONTINUE, reads everything, and its offset is
      the master's, yet it shows the master's data only if the write changed nothing. */
  lemma MissedWriteRun(s: Sys, c: Cmd, fd: Fd, hint: Walk) returns (ss: seq<Sys>, es: seq<Event>)
    requires Inv(s) && Settled(s, hint) && s.sl.state == Streaming && Trusted(s) && s.at.epoch == s.epoch
    requires s.m.slaves.Keys == {s.link.value.fd} && fd !in s.m.out && Apply(s.db, c).done
    ensures |es| == 8 && Steps(ss, es) && ss[0] == s
    ensures Settled(ss[8], hint) && ss[8].sl.state == Streaming && ss[8].sl.offset == |ss[8].m.log|
    ensures ViewOf(ss[8].sl.db) == ViewOf(ss[8].db) <==> At(ViewOf(s.db), PlaceOf(c)) == Left(c)
  {
    hide LogInv, SlaveInv, MasterInv, LinkInv, GapFree, Follows, ViewOf, Run, Settled, Coherent, Apply, At, Effect;
    assert s.link.Some? by { SettledHas(s, hint); }
    Convergence(s, hint);
    SettledAtTip(s, hint);
    var t3, first, events := Deserted(s, c, fd, hint);
    Empty(s);
    EmptyRun(t3.sl.db, t3.fed[t3.at.k..]);
    var rest, more := Rejoins(t3, fd, hint);
    StepsConcat(first, events, rest, more);
    ss, es := first + rest[1..], events + more;
    ApplyShows(s.db, c) by { CoherentDb(s); DoneHasKey(s.db, c); }
    DoneHasKey(s.db, c);
    MissedWrite(ViewOf(s.db), c, []);
  }

  lemma SettledHas(s: Sys, hint: Walk)
    requires Settled(s, hint)
    ensures s.link.Some?
  {}

  lemma Empty(s: Sys)
    ensures s.fed[|s.fed|..] == []
  {}

  lemma EmptyRun(db: Db, cs: seq<Cmd>)
    ensures cs == [] ==> Run(db, cs) == Ran(true, db, 0)
  {}

  lemma CoherentDb(s: Sys)
    requires LogInv(s)
    ensures Coherent(s.db.index)
  {
    hide ViewOf, Coherent, Effects;
  }

  lemma StepsConcat(a: seq<Sys>, ea: seq<Event>, b: seq<Sys>, eb: seq<Event>)
    requires Steps(a, ea) && Steps(b, eb) && a[|a| - 1] == b[0]
    ensures Steps(a + b[1..], ea + eb)
  {
    hide Follows;
    var ss, es := a + b[1..], ea + eb;
    forall i | 0 <= i < |es| ensures Follows(ss[i], es[i], ss[i + 1]) {
      if i < |ea| {
        assert Follows(a[i], ea[i], a[i + 1]);
      } else {
        assert ss[i] == b[i - |ea|] && ss[i + 1] == b[i + 1 - |ea|];
        assert Follows(b[i - |ea|], eb[i - |ea|], b[i + 1 - |ea|]);
      }
    }
  }

  /** The link is lost on both sides and a write is applied while nobody is registered. */
  lemma Deserted(s: Sys, c: Cmd, fd: Fd, hint: Walk) returns (t: Sys, ss: seq<Sys>, es: seq<Event>)
    requires Inv(s) && s.link.Some? && s.m.slaves.Keys == {s.link.value.fd} && fd !in s.m.out && Apply(s.db, c).done
    requires Ours(s) && s.sl.offset == |s.m.log|
    ensures |es| == 3 && Steps(ss, es) && ss[0] == s && ss[3] == t && Inv(t)
    ensures t.link.None? && fd !in t.m.out && Ours(t) && t.sl.offset == s.sl.offset && Retains(t.m, t.sl.offset)
    ensures t.sl.db == s.sl.db && t.fed == s.fed && t.at == s.at && t.db == Apply(s.db, c).db && t.m.log == s.m.log
  {
    hide LogInv, SlaveInv, MasterInv, LinkInv, GapFree, ViewOf, Run, Coherent, Apply;
    GapBase(s.m);
    var e1, e2, e3 := SlaveDrops, Disconnect(s.link.value.fd), Event.Write(c, true, {});
    var t1 := Step(s, e1);
    StepKeeps(s, e1);
    var t2 := Step(t1, e2);
    StepKeeps(t1, e2);
    assert t2.m.slaves == map[];
    t := Step(t2, e3);
    StepKeeps(t2, e3);
    ss, es := [s, t1, t2, t], [e1, e2, e3];
  }

  // ---- a link lost between the announcement and the load ------------------------------------------------------------

  /** The cut offset is recorded before the snapshot is there. If the link is lost in between and the
      offset is still retained, the replica is granted +CONTINUE and ends at the master's offset
      with the feed since the cut on top of its old data: the master's data if and only if
      what it held before differed from what the cut stands for only where that feed writes. */
  lemma LostBeforeLoad(s: Sys, fd: Fd, hint: Walk) returns (ss: seq<Sys>, es: seq<Event>)
    requires Inv(s) && s.link.Some? && s.sl.state in {RecvRdbHeader, RecvRdbBody} && s.at.epoch == s.epoch
    requires fd !in s.m.out && Retains(s.m, s.sl.offset)
    requires Coherent(s.sl.db.index) && s.at.k <= |s.fed| && Run(s.sl.db, s.fed[s.at.k..]).ok
    ensures |es| == 6 && Steps(ss, es) && ss[0] == s && es[0] == SlaveDrops && s.since <= s.at.k
    ensures Settled(ss[6], hint) && ss[6].sl.state == Streaming && ss[6].sl.offset == |ss[6].m.log| && ss[6].db == s.db
    ensures ViewOf(ss[6].sl.db) == ViewOf(ss[6].db)
            <==> AgreeExcept(ViewOf(s.sl.db), Effects(s.from, s.fed[s.since..s.at.k]), Places(s.fed[s.at.k..]))
  {
    hide LogInv, MasterInv, GapFree, LinkInv, SlaveInv, ViewOf, Run, Settled, Coherent, Effects, AgreeExcept, Retains, Pos, Follows;
    ReadOk(s);
    OffsetKnown(s.sl, Read(s), s.m.replid, Rest(s));
    KnownView(s);
    InvGap(s);
    GapBase(s.m);
    DropsKeeps(s);
    var t := Step(s, SlaveDrops);
    assert Follows(s, SlaveDrops, t) by { FollowsStep(s, SlaveDrops); }
    var rest, more := ContinueShows(t, fd, hint);
    OneThenSteps(s, SlaveDrops, t, rest, more);
    ss, es := [s] + rest, [SlaveDrops] + more;
    SameAfterLog(ViewOf(s.sl.db), Effects(s.from, s.fed[s.since..s.at.k]), s.fed[s.at.k..]);
  }

  /** The master's data as the feed since the recorded moment on top of what that moment stands for. */
  lemma KnownView(s: Sys)
    requires LogInv(s) && SlaveInv(s) && Ours(s) && s.at.epoch == s.epoch
    ensures s.since <= s.at.k <= |s.fed|
    ensures ViewOf(s.db) == Effects(Effects(s.from, s.fed[s.since..s.at.k]), s.fed[s.at.k..])
  {
    hide ViewOf, Coherent, Effects, LoadedOk;
    assert s.fed[s.since..] == s.fed[s.since..s.at.k] + s.fed[s.at.k..];
    EffectsConcat(s.from, s.fed[s.since..s.at.k], s.fed[s.at.k..]);
  }
}
