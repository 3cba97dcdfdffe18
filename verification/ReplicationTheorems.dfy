/** The followed replica's own steps, runs of the system, and convergence. */
module ReplicationTheorems {
  import opened ByteStrings
  import opened Commands
  import opened Views
  import opened VNodeStorages
  import opened VNodeIndexes
  import opened Databases
  import opened Frames
  import opened Snapshots
  import opened ReplicationSlaves
  import opened ReplicationMasters
  import opened Replication
  import opened ReplicationParser
  import opened ReplicationInvariants

  // ---- connecting, receiving, losing the link -----------------------------------------------------------------------

  /** A step of the replica leaves the master and all bookkeeping about it alone. */
  ghost predicate SlaveOnly(s: Sys, t: Sys) {
    t == s.(sl := t.sl, link := t.link, at := t.at, loaded := t.loaded)
  }

  lemma SlaveOnlyMaster(s: Sys, t: Sys)
    requires SlaveOnly(s, t) && LogInv(s) && MasterInv(s)
    ensures LogInv(t) && MasterInv(t)
  {
    hide CycleOk, HeadOk, Coherent, ViewOf;
    OnlyMarks(s, t);
    forall fd | fd in t.m.out ensures HeadOk(t, fd, t.m.out[fd].head) {
      OnlyHeads(s, t, fd);
    }
  }

  lemma OnlyMarks(s: Sys, t: Sys)
    requires SlaveOnly(s, t) && CycleOk(s)
    ensures CycleOk(t)
  {
    hide OrdersOf, Coherent, ViewOf, Effects, Image;
  }

  lemma OnlyHeads(s: Sys, t: Sys, fd: Fd)
    requires SlaveOnly(s, t) && fd in s.m.out && HeadOk(s, fd, s.m.out[fd].head)
    ensures HeadOk(t, fd, t.m.out[fd].head)
  {
    hide OrdersOf, Coherent, ViewOf, Effects, Image, Boundary;
  }

  /** Dropping or opening a link keeps the data, the offset and what is known about them. */
  lemma ResetKeeps(s: Sys, t: Sys, state: State)
    requires SlaveInv(s) && t == s.(m := t.m, sl := ResetLink(s.sl).(state := state), link := t.link)
    requires t.m.replid == s.m.replid && (state == Init || state == WaitFullresync)
    ensures SlaveInv(t)
  {
    hide ViewOf, Coherent, Effects;
  }

  lemma DropsKeeps(s: Sys)
    requires Inv(s) && s.link.Some?
    ensures Inv(s.(sl := ResetLink(s.sl), link := None))
  {
    hide SlaveInv, LogInv, MasterInv, GapFree;
    var t := s.(sl := ResetLink(s.sl), link := None);
    SlaveOnlyMaster(s, t);
    ResetKeeps(s, t, Init);
  }

  /** A replica of another master is known to have nothing of this one's. */
  lemma ComesKeeps(s: Sys, replid: Bytes, offset: nat, db: Db)
    requires Inv(s) && Enabled(s, SlaveComes(replid, offset, db))
    ensures s.m.base <= |s.m.log| && Inv(Step(s, SlaveComes(replid, offset, db)))
  {
    hide LogInv, MasterInv, GapFree, LoadedOk;
    GapBase(s.m);
    SlaveOnlyMaster(s, Step(s, SlaveComes(replid, offset, db)));
  }

  lemma FreshFd(m: Master, fd: Fd)
    requires GapFree(m) && fd !in m.out
    ensures fd !in m.slaves && Open(m, fd).out[fd] == SILENT && Open(m, fd).slaves == m.slaves && Open(m, fd).replid == m.replid
    ensures fd in Open(m, fd).out
  {}

  lemma ConnectsKeeps(s: Sys, fd: Fd)
    requires Inv(s) && s.link.None? && fd !in s.m.out
    ensures s.m.base <= |s.m.log| && Inv(Step(s, SlaveConnects(fd)))
  {
    hide SlaveInv, LogInv, MasterInv, GapFree, Open;
    GapBase(s.m);
    OpenKeeps(s, fd);
    FreshFd(s.m, fd);
    var u := s.(m := Open(s.m, fd));
    var t := Step(s, SlaveConnects(fd));
    SlaveOnlyMaster(u, t);
    ResetKeeps(u, t, WaitFullresync);
    WaitPos(t.sl, SILENT, t.m.replid);
  }

  lemma PosReceives(sl: Slave, r: Reply, replid: Bytes, rest: Bytes, n: nat)
    requires n <= |rest| && Pos(sl, r, replid, rest)
    ensures Pos(Receive(sl, rest[..n]), r, replid, rest[n..])
  {
    hide ReplyBytes, LengthLine, Tail;
    var x := rest[..n];
    assert rest == x + rest[n..];
    assert sl.input + rest == (sl.input + x) + rest[n..];
    assert FileOf(Receive(sl, x)) == FileOf(sl);
    assert FileOf(sl) + sl.input + rest == FileOf(sl) + (sl.input + x) + rest[n..];
    assert sl.backlog + sl.input + rest == sl.backlog + (sl.input + x) + rest[n..];
    assert sl.stream + sl.input + rest == sl.stream + (sl.input + x) + rest[n..];
  }

  lemma ReceivesKeeps(s: Sys, n: nat)
    requires Inv(s) && Enabled(s, SlaveReceives(n))
    ensures s.m.base <= |s.m.log| && Inv(Step(s, SlaveReceives(n)))
  {
    hide LogInv, MasterInv, GapFree, Pos, ReplyBytes, SlaveInv;
    GapBase(s.m);
    var t := Step(s, SlaveReceives(n));
    SlaveOnlyMaster(s, t);
    var l := s.link.value;
    var bytes := BytesOn(s, l.fd);
    assert bytes[l.got..l.got + n] == bytes[l.got..][..n];
    assert bytes[l.got + n..] == bytes[l.got..][n..];
    PosReceives(s.sl, s.m.out[l.fd], s.m.replid, bytes[l.got..], n);
    SlaveExpects(s);
    SameSlaveData(s, t);
  }

  lemma SlaveExpects(s: Sys)
    requires SlaveInv(s)
    ensures Expecting(s.sl)
  {
    hide LoadedOk;
  }

  /** What is known of the replica's data does not depend on its link or its buffers. */
  lemma SameSlaveData(s: Sys, t: Sys)
    requires SlaveInv(s) && SlaveOnly(s, t) && t.at == s.at && t.loaded == s.loaded && Expecting(t.sl)
    requires t.sl.db == s.sl.db && t.sl.offset == s.sl.offset && t.sl.haveOffset == s.sl.haveOffset && t.sl.replid == s.sl.replid
    ensures SlaveInv(t)
  {
    hide ViewOf, Coherent, Effects, OrdersOf, Image;
  }

  // ---- asking -----------------------------------------------------------------------------------------------------------

  lemma AskedKeeps(s: Sys)
    requires Inv(s) && s.link.Some? && !s.link.value.asked
    ensures Inv(s.(link := Some(s.link.value.(asked := true))))
    ensures s.sl.state == WaitFullresync && s.sl.input == [] && s.link.value.got == 0
    ensures s.link.value.fd in s.m.out && s.m.out[s.link.value.fd] == SILENT
  {
    hide LogInv, MasterInv, GapFree, SlaveInv;
    var t := s.(link := Some(s.link.value.(asked := true)));
    SlaveOnlyMaster(s, t);
    SameSlaveData(s, t);
    SameStart(s, t);
  }

  /** The replica asks for its own offset if it has one. */
  lemma AsksKeeps(s: Sys, fork: Option<Orders>)
    requires Inv(s) && Enabled(s, SlaveAsks(fork))
    ensures s.m.base <= |s.m.log| && Inv(Step(s, SlaveAsks(fork)))
  {
    hide LogInv, MasterInv, LinkInv, SlaveInv, GapFree, PsyncStep, ForkFits, Continues;
    GapBase(s.m);
    AskedKeeps(s);
    var u := s.(link := Some(s.link.value.(asked := true)));
    var known := s.sl.haveOffset && s.sl.replid != [];
    var replid := if known then s.sl.replid else [63];
    var offset := if known then s.sl.offset else -1;
    NoOffsetNoContinue(s.m, s.link.value.fd, replid);
    OnlyOursContinue(s);
    assert ForkFits(u, fork) by { SameFork(s, u, fork); }
    PsyncKeeps(u, u.link.value.fd, replid, offset, fork);
    PsyncIsOnPsync(u, u.link.value.fd, replid, offset, fork);
  }

  lemma SameFork(s: Sys, t: Sys, fork: Option<Orders>)
    requires t.db == s.db && ForkFits(s, fork)
    ensures ForkFits(t, fork)
  {}

  /** +CONTINUE is granted only to a replica whose offset is one of this master's. */
  lemma OnlyOursContinue(s: Sys)
    requires s.link.Some?
    ensures s.sl.haveOffset && Continues(s.m, s.link.value.fd, s.sl.replid, s.sl.offset) ==> Ours(s)
  {}

  lemma NoOffsetNoContinue(m: Master, fd: Fd, replid: Bytes)
    ensures !Continues(m, fd, replid, -1)
  {}

  // ---- one round of the parser -----------------------------------------------------------------------------------------

  /** Running more of the feed, in full or up to a rejected command, stays on track: from the new
      position if it all succeeded, from the old one in any case. */
  lemma TrackRun(db: Db, fed: seq<Cmd>, k: nat, j: nat)
    requires Coherent(db.index) && k + j <= |fed|
    ensures var q := Run(db, fed[k..][..j]);
            && Coherent(q.db.index)
            && (q.ok ==> Effects(ViewOf(q.db), fed[k + j..]) == Effects(ViewOf(db), fed[k..]))
            && Effects(ViewOf(q.db), fed[k..]) == Effects(ViewOf(db), fed[k..])
  {
    hide ViewOf, Run, Effects, Coherent;
    var cs := fed[k..];
    var q := Run(db, cs[..j]);
    RunShows(db, cs[..j]);
    var i := q.applied;
    assert cs[..j][..i] == cs[..i];
    assert cs == cs[..i] + cs[i..];
    Overlap(ViewOf(db), cs[..i], cs[i..]);
    if q.ok {
      assert cs[j..] == fed[k + j..];
      EffectsConcat(ViewOf(db), cs[..j], cs[j..]);
    }
  }

  /** A run of bytes of the feed starting at a command is a prefix of the commands' encoding. */
  lemma FedPrefix(s: Sys, k: nat, bytes: Bytes)
    requires LogInv(s) && k <= |s.fed|
    requires Off(s.fed, k) + |bytes| <= |s.m.log| && bytes == s.m.log[Off(s.fed, k)..Off(s.fed, k) + |bytes|]
    ensures |bytes| <= |EncodeAll(s.fed[k..])| && bytes == EncodeAll(s.fed[k..])[..|bytes|]
    ensures AllKeyed(s.fed[k..])
  {
    hide ViewOf, Coherent, Effects, EncodeAll;
    OffRest(s.fed, k);
    var rest := EncodeAll(s.fed[k..]);
    assert s.m.log[Off(s.fed, k)..][..|bytes|] == bytes;
    forall i | 0 <= i < |s.fed[k..]| ensures HasKey(s.fed[k..][i]) {
      assert s.fed[k..][i] == s.fed[k + i];
    }
  }

  /** Consuming feed bytes that start at the replica's position moves it by whole commands. */
  lemma Consumes(s: Sys, bytes: Bytes, t: Sys)
    requires LogInv(s) && SlaveInv(s) && Ours(s)
    requires s.sl.offset + |bytes| <= |s.m.log| && bytes == s.m.log[s.sl.offset..s.sl.offset + |bytes|]
    requires SlaveOnly(s, t) && t.loaded == s.loaded && t.sl.replid == s.sl.replid && t.sl.haveOffset && Expecting(t.sl)
    requires var c := ConsumeStream(s.sl.db, bytes);
             && t.sl.db == c.db && t.sl.offset == s.sl.offset + c.used
             && t.at == s.at.(k := s.at.k + WholeFrames(s.fed[s.at.k..], c.used))
    ensures SlaveInv(t)
  {
    hide ViewOf, Coherent, Effects, EncodeAll, ConsumeStream, Run, LoadedOk;
    var k := s.at.k;
    var cs := s.fed[k..];
    FedPrefix(s, k, bytes);
    ConsumeFed(s.sl.db, cs, |bytes|);
    var j := WholeFrames(cs, |bytes|);
    var q := Run(s.sl.db, cs[..j]);
    assert cs[..0] == [];
    WholeFramesExact(cs, if q.ok then j else 0);
    OffPlus(s.fed, k, if q.ok then j else 0);
    if s.loaded.Some? {
      LoadedCoherentDb(s);
      TrackRun(s.sl.db, s.fed, k, j);
      KnownMore(s, t, s.loaded.value);
    }
  }

  /** What is known of the load is still known when the data has moved along the feed. */
  lemma KnownMore(s: Sys, t: Sys, l: Loaded)
    requires LoadedOk(s, l) && SlaveOnly(s, t) && t.at.epoch == s.at.epoch && s.at.k <= |s.fed| && Coherent(t.sl.db.index)
    requires t.at.k <= |s.fed| ==> Effects(ViewOf(t.sl.db), s.fed[t.at.k..]) == Effects(ViewOf(s.sl.db), s.fed[s.at.k..])
    ensures LoadedOk(t, l)
  {
    hide ViewOf, Coherent, Effects, OrdersOf;
  }

  lemma LoadedCoherentDb(s: Sys)
    requires SlaveInv(s) && s.loaded.Some?
    ensures Coherent(s.sl.db.index) && LoadedOk(s, s.loaded.value)
  {
    hide ViewOf, Coherent, Effects, OrdersOf;
  }

  /** Nothing consumed: the recorded moment stays. */
  lemma Stays(fed: seq<Cmd>)
    ensures WholeFrames(fed, 0) == 0
  {
    assert fed[..0] == [];
    WholeFramesExact(fed, 0);
  }

  lemma RemembersKeeps(s: Sys, t: Sys)
    requires SlaveInv(s) && SlaveOnly(s, t) && Remembers(s.sl, t.sl) && t.at == s.at && Expecting(t.sl)
    requires t.loaded.Some? ==> t.loaded == s.loaded
    ensures SlaveInv(t)
  {
    hide ViewOf, Coherent, Effects;
  }

  /** The reply being read and what of it is still to come. */
  ghost function Read(s: Sys): Reply
    requires LinkInv(s) && s.link.Some?
  {
    s.m.out[s.link.value.fd]
  }

  ghost function Rest(s: Sys): Bytes
    requires LinkInv(s) && s.link.Some?
  {
    BytesOn(s, s.link.value.fd)[s.link.value.got..]
  }

  lemma ReadOk(s: Sys)
    requires Inv(s) && s.link.Some?
    ensures ReplyOk(Read(s), s.m.log) && ImageSizes(Read(s)) && PlainId(s.m.replid) && Expecting(s.sl)
    ensures Pos(s.sl, Read(s), s.m.replid, Rest(s)) && HeadOk(s, s.link.value.fd, Read(s).head)
  {
    hide ViewOf, Coherent, Effects, Image, OrdersOf, ReplyBytes;
    var fd := s.link.value.fd;
    assert HeadOk(s, fd, s.m.out[fd].head);
    if Read(s).head.FullHead? {
      ImageSize(s.sent[fd].snap.db, s.sent[fd].snap.orders);
    }
  }

  /** What a round must establish beyond the parser's position. */
  lemma RoundDone(s: Sys, t: Sys)
    requires Inv(s) && s.link.Some? && SlaveOnly(s, t) && t.link == s.link && SlaveInv(t)
    requires Pos(t.sl, Read(s), s.m.replid, Rest(s)) && AtStart(t, s.link.value.fd)
    requires !s.link.value.asked ==> t.sl.state == WaitFullresync
    ensures Inv(t)
  {
    hide LogInv, MasterInv, GapFree, SlaveInv, Pos, ReplyBytes, AtStart;
    SlaveOnlyMaster(s, t);
  }

  lemma UnaskedQuiet(s: Sys, hint: Walk)
    requires Inv(s) && s.link.Some? && !s.link.value.asked
    ensures s.sl.state == WaitFullresync && Iterate(s.sl, hint).slave == s.sl
  {
    hide LogInv, MasterInv, GapFree, SlaveInv;
    AskedInput(s);
  }

  lemma AskedInput(s: Sys)
    requires Inv(s) && s.link.Some? && !s.link.value.asked
    ensures s.sl.input == []
  {
    hide LogInv, MasterInv, GapFree, SlaveInv;
  }

  /** A round that consumed nothing from the stream and neither began nor ended a snapshot. */
  lemma PlainRound(s: Sys, hint: Walk)
    requires s.link.Some? && SlaveInv(s)
    ensures var t := RoundStep(s, hint);
            && t.sl == Iterate(s.sl, hint).slave && SlaveOnly(s, t) && t.link == s.link
            && (t.sl.offset == s.sl.offset && !(s.sl.state == WaitFullresync && t.sl.state == RecvRdbHeader)
                && !(s.sl.state in {RecvRdbHeader, RecvRdbBody} && t.sl.state == RecvBacklogHeader)
                ==> t.at == s.at && t.loaded == s.loaded)
  {
    hide Iterate, MarkOk, LoadedOk, Sound, WholeFrames;
    if s.at.k <= |s.fed| {
      Stays(s.fed[s.at.k..]);
    }
  }

  lemma WaitRoundKeeps(s: Sys, hint: Walk)
    requires Inv(s) && s.link.Some? && s.sl.state == WaitFullresync
    ensures Inv(RoundStep(s, hint))
  {
    hide LogInv, MasterInv, GapFree, Pos, ReplyBytes, WaitRound, LinkInv, SimpleString, RoundStep, SlaveInv, AtStart,
      HeadOk, ReplyOk, ImageSizes, PlainId;
    ReadOk(s);
    WaitKeeps(s.sl, Read(s), s.m.replid, Rest(s), s.m.log);
    PlainRound(s, hint);
    IterateProgress(s.sl, hint);
    var t := RoundStep(s, hint);
    if !s.link.value.asked {
      UnaskedQuiet(s, hint);
    }
    if t.sl.state == RecvRdbHeader {
      HeadStart(s, s.link.value.fd, Read(s).head);
      AnnouncedRound(s, hint);
      StartedMoment(s, t, s.link.value.fd);
    } else {
      RemembersKeeps(s, t);
      NotPastStart(t, s.link.value.fd);
    }
    RoundDone(s, t);
  }

  lemma HeadStart(s: Sys, fd: Fd, h: Head)
    requires HeadOk(s, fd, h) && (h.FullHead? || h.BrokenHead?)
    ensures fd in s.marks && StartOk(s, fd, h.offset)
  {
    hide MarkOk, SnapOk, Image, Boundary;
  }

  lemma AnnouncedRound(s: Sys, hint: Walk)
    requires s.link.Some? && s.sl.state == WaitFullresync && RoundStep(s, hint).sl.state == RecvRdbHeader
    requires s.link.value.fd in s.marks
    ensures RoundStep(s, hint).at == s.marks[s.link.value.fd] && RoundStep(s, hint).loaded.None?
    ensures AtStart(RoundStep(s, hint), s.link.value.fd)
  {
    hide Iterate;
  }

  lemma NotPastStart(s: Sys, fd: Fd)
    requires s.sl.state in {WaitFullresync, Streaming, Error}
    ensures AtStart(s, fd)
  {}

  lemma StartedMoment(s: Sys, t: Sys, fd: Fd)
    requires SlaveOnly(s, t) && StartOk(s, fd, t.sl.offset) && t.at == s.marks[fd] && t.loaded.None?
    requires t.sl.replid == s.m.replid && Expecting(t.sl)
    ensures SlaveInv(t)
  {}

  lemma RdbHeaderRoundKeeps(s: Sys, hint: Walk)
    requires Inv(s) && s.link.Some? && s.sl.state == RecvRdbHeader
    ensures Inv(RoundStep(s, hint))
  {
    hide LogInv, MasterInv, GapFree, Pos, ReplyBytes, RdbHeaderRound, RoundStep, SlaveInv, LoadedOk;
    ReadOk(s);
    RdbHeaderKeeps(s.sl, Read(s), s.m.replid, Rest(s), hint);
    PlainRound(s, hint);
    IterateProgress(s.sl, hint);
    var t := RoundStep(s, hint);
    RemembersKeeps(s, t);
    RoundDone(s, t);
  }

  lemma BacklogHeaderRoundKeeps(s: Sys, hint: Walk)
    requires Inv(s) && s.link.Some? && s.sl.state == RecvBacklogHeader
    ensures Inv(RoundStep(s, hint))
  {
    hide LogInv, MasterInv, GapFree, Pos, ReplyBytes, BacklogHeaderRound, RoundStep, SlaveInv, LoadedOk;
    ReadOk(s);
    BacklogHeaderKeeps(s.sl, Read(s), s.m.replid, Rest(s), s.m.log);
    PlainRound(s, hint);
    IterateProgress(s.sl, hint);
    var t := RoundStep(s, hint);
    RemembersKeeps(s, t);
    RoundDone(s, t);
  }

  // ---- the snapshot is loaded -------------------------------------------------------------------------------------------

  /** A sound snapshot replaces whatever the replica held by the master's data at the fork. */
  lemma LoadsSnapshot(sn: Snap, before: Db, hint: Walk)
    requires Sound(sn) && Coherent(sn.db.index)
    ensures var l := LoadPath(Image(sn.db, sn.orders), before, hint);
            l.ok && Coherent(l.db.index) && ViewOf(l.db) == ViewOf(sn.db)
  {
    hide LoadImage, ImageFits, Image, Coherent, ViewOf, Reloaded;
    SaveLoad(sn.db, sn.orders, true, before, hint.first);
    ReloadCoherent(sn.db, hint.first);
    ReloadShows(sn.db, hint.first);
  }

  /** A snapshot taken no earlier than the start offset, with the log from that offset: the overlap
      is harmless and the rest of the feed leads to the master's state. */
  lemma SnapshotOnTrack(s: Sys, start: Mark, sn: Snap)
    requires LogInv(s) && MarkOk(s, start) && SnapOk(s, sn) && NotAfter(start, sn.mark) && start.epoch == s.epoch
    ensures Effects(ViewOf(sn.db), s.fed[start.k..]) == ViewOf(s.db)
  {
    hide ViewOf, Coherent, Effects, OrdersOf;
    var a := s.fed[s.since..start.k];
    var b := s.fed[start.k..sn.mark.k];
    var c := s.fed[sn.mark.k..];
    var v := Effects(s.from, a);
    InThree(s.fed, s.since, start.k, sn.mark.k);
    EffectsConcat(s.from, a, b);
    EffectsConcat(s.from, a, b + c);
    Overlap(v, b, c);
  }

  lemma InThree(fed: seq<Cmd>, i: nat, j: nat, k: nat)
    requires i <= j <= k <= |fed|
    ensures fed[i..k] == fed[i..j] + fed[j..k] && fed[j..] == fed[j..k] + fed[k..]
    ensures fed[i..] == fed[i..j] + (fed[j..k] + fed[k..])
  {}

  lemma OffsetKnown(sl: Slave, r: Reply, replid: Bytes, rest: Bytes)
    requires Pos(sl, r, replid, rest)
    ensures sl.state in {RecvRdbHeader, RecvRdbBody, RecvBacklogHeader, RecvBacklogBody, Streaming} ==> sl.haveOffset && sl.replid == replid
  {}

  lemma RdbBodyRoundKeeps(s: Sys, hint: Walk)
    requires Inv(s) && s.link.Some? && s.sl.state == RecvRdbBody
    ensures Inv(RoundStep(s, hint))
  {
    hide LogInv, MasterInv, GapFree, Pos, ReplyBytes, RdbBodyRound, RoundStep, SlaveInv, LoadedOk, LoadPath, Sound, HeadOk;
    ReadOk(s);
    RdbBodyKeeps(s.sl, Read(s), s.m.replid, Rest(s), hint, s.m.log);
    PlainRound(s, hint);
    IterateProgress(s.sl, hint);
    var t := RoundStep(s, hint);
    OffsetKnown(s.sl, Read(s), s.m.replid, Rest(s));
    if t.sl.state == RecvBacklogHeader {
      LoadedRound(s, t, hint);
    } else if t.sl.state == RecvRdbBody {
      RemembersKeeps(s, t);
    } else {
      UntrustedKeeps(s, t);
    }
    RoundDone(s, t);
  }

  lemma UntrustedKeeps(s: Sys, t: Sys)
    requires SlaveInv(s) && SlaveOnly(s, t) && t.loaded.None? && t.at == s.at && Expecting(t.sl)
    requires t.sl.replid == s.sl.replid && t.sl.offset == s.sl.offset && t.sl.haveOffset == s.sl.haveOffset
    ensures SlaveInv(t)
  {
    hide LoadedOk;
  }

  lemma LoadedRound(s: Sys, t: Sys, hint: Walk)
    requires Inv(s) && s.link.Some? && s.sl.state == RecvRdbBody && t == RoundStep(s, hint)
    requires t.sl.state == RecvBacklogHeader && Read(s).head.FullHead? && HeadOk(s, s.link.value.fd, Read(s).head)
    requires t.sl.db == LoadPath(Read(s).head.image, s.sl.db, hint).db
    requires t.sl.replid == s.sl.replid && t.sl.offset == s.sl.offset && t.sl.haveOffset == s.sl.haveOffset && Expecting(t.sl)
    requires Ours(s)
    ensures SlaveInv(t) && AtStart(t, s.link.value.fd)
  {
    hide GapFree, MasterInv, LogInv, Pos, ReplyBytes, LoadPath, Iterate, ViewOf, Coherent, Effects, Image, ImageFits;
    var fd := s.link.value.fd;
    assert AtStart(s, fd);
    assert t.at == s.at == s.marks[fd];
    if t.loaded.Some? {
      LoadsSnapshot(s.sent[fd].snap, s.sl.db, hint);
    }
  }

  // ---- the backlog and the stream are applied ------------------------------------------------------------------------------

  /** The data behind a reply's head is the log from the head's offset on. */
  lemma DataInLog(r: Reply, log: Bytes, from: nat, n: nat)
    requires ReplyOk(r, log) && (r.head.FullHead? || r.head.ContinueHead?) && from + n <= |r.data|
    ensures r.head.offset + from + n <= |log|
    ensures r.data[from..from + n] == log[r.head.offset + from..r.head.offset + from + n]
  {
    SliceOfSlice(log, r.data, r.head.offset, from, n);
  }

  lemma SliceOfSlice(log: Bytes, d: Bytes, o: nat, from: nat, n: nat)
    requires o + |d| <= |log| && d == log[o..o + |d|] && from + n <= |d|
    ensures d[from..from + n] == log[o + from..o + from + n]
  {
    var a, b := d[from..from + n], log[o + from..o + from + n];
    forall i | 0 <= i < n ensures a[i] == b[i] {
      assert d[from + i] == log[o + (from + i)];
    }
  }

  /** A backlog that ends at a frame boundary is consumed to its last byte unless a command in it is
      rejected: the parser's "truncated backlog frame" failure cannot happen. */
  lemma BacklogUsedUp(s: Sys, n: nat)
    requires Inv(s) && s.link.Some? && s.sl.state == RecvBacklogBody
    requires Read(s).head.FullHead? && Read(s).head.backlog == Some(n) && n <= |Read(s).data|
    requires HeadOk(s, s.link.value.fd, Read(s).head) && Ours(s) && Read(s).head.offset == s.sl.offset
    ensures var c := ConsumeStream(s.sl.db, Read(s).data[..n]);
            && (c.ok ==> c.used == n)
            && (c.ok <==> Run(s.sl.db, s.fed[s.at.k..][..WholeFrames(s.fed[s.at.k..], n)]).ok)
  {
    hide MasterInv, Pos, ReplyBytes, ViewOf, Coherent, Effects, Image, ConsumeStream, Run, EncodeAll, LoadedOk, SnapOk, WholeFrames;
    var k := s.at.k;
    var cs := s.fed[k..];
    ReadOk(s);
    DataInLog(Read(s), s.m.log, 0, n);
    FedPrefix(s, k, Read(s).data[..n]);
    ConsumeFed(s.sl.db, cs, n);
    BoundaryIndex(s.fed, k, n);
  }

  lemma BoundaryIndex(fed: seq<Cmd>, k: nat, n: nat)
    requires k <= |fed| && Boundary(fed, Off(fed, k) + n)
    ensures |EncodeAll(fed[k..][..WholeFrames(fed[k..], n)])| == n
  {
    hide EncodeAll;
    var b: nat :| b <= |fed| && Off(fed, b) == Off(fed, k) + n;
    if b < k {
      Longer(fed, b, k);
    } else {
      OffPlus(fed, k, b - k);
      WholeFramesExact(fed[k..], b - k);
    }
  }

  lemma BacklogBodyRoundKeeps(s: Sys, hint: Walk)
    requires Inv(s) && s.link.Some? && s.sl.state == RecvBacklogBody
    ensures Inv(RoundStep(s, hint))
  {
    hide LogInv, MasterInv, GapFree, Pos, ReplyBytes, BacklogBodyRound, RoundStep, SlaveInv, LoadedOk, ConsumeStream, HeadOk, ReplyOk;
    ReadOk(s);
    BacklogBodyKeeps(s.sl, Read(s), s.m.replid, Rest(s), s.m.log);
    OffsetKnown(s.sl, Read(s), s.m.replid, Rest(s));
    PlainRound(s, hint);
    IterateProgress(s.sl, hint);
    var t := RoundStep(s, hint);
    if t.sl.state == RecvBacklogBody {
      RemembersKeeps(s, t);
    } else {
      BodyHead(s.sl, Read(s), s.m.replid, Rest(s), s.m.log);
      AppliedRound(s, t, hint);
      NotPastStart(t, s.link.value.fd);
    }
    RoundDone(s, t);
  }

  lemma BodyHead(sl: Slave, r: Reply, replid: Bytes, rest: Bytes, log: Bytes)
    requires Pos(sl, r, replid, rest) && sl.state == RecvBacklogBody && ReplyOk(r, log)
    ensures r.head.FullHead? && r.head.backlog.Some? && r.head.offset == sl.offset && r.head.backlog.value <= |r.data|
  {}

  /** The received backlog is the log from the replica's offset on, and is used up if it can be applied. */
  lemma BacklogBytes(s: Sys)
    requires Inv(s) && s.link.Some? && s.sl.state == RecvBacklogBody
    ensures Read(s).head.FullHead? && Read(s).head.backlog.Some? && Read(s).head.backlog.value <= |Read(s).data|
    ensures var bytes := Read(s).data[..Read(s).head.backlog.value];
            && Ours(s) && s.sl.offset + |bytes| <= |s.m.log|
            && bytes == s.m.log[s.sl.offset..s.sl.offset + |bytes|]
            && (ConsumeStream(s.sl.db, bytes).ok ==> ConsumeStream(s.sl.db, bytes).used == |bytes|)
  {
    hide LogInv, MasterInv, GapFree, LinkInv, SlaveInv, Pos, ReplyOk, HeadOk, ConsumeStream, Run, WholeFrames, EncodeAll, BytesOn, Expecting,
      ImageSizes, PlainId;
    ReadOk(s);
    BodyHead(s.sl, Read(s), s.m.replid, Rest(s), s.m.log);
    OffsetKnown(s.sl, Read(s), s.m.replid, Rest(s));
    var n := Read(s).head.backlog.value;
    BacklogUsedUp(s, n);
    DataInLog(Read(s), s.m.log, 0, n);
  }

  /** Applying the backlog moves data, offset and moment by what was consumed. */
  lemma AppliedIs(s: Sys, hint: Walk, bytes: Bytes)
    requires s.link.Some? && s.sl.state == RecvBacklogBody && s.at.k <= |s.fed|
    requires AppliedBacklog(s.sl, Iterate(s.sl, hint).slave, bytes)
    requires ConsumeStream(s.sl.db, bytes).ok ==> ConsumeStream(s.sl.db, bytes).used == |bytes|
    ensures var t := RoundStep(s, hint);
            var c := ConsumeStream(s.sl.db, bytes);
            && SlaveOnly(s, t) && t.loaded == s.loaded && t.sl.db == c.db && t.sl.offset == s.sl.offset + c.used
            && (t.sl.state == Streaming <==> c.ok)
            && t.at == s.at.(k := s.at.k + WholeFrames(s.fed[s.at.k..], c.used))
  {
    hide Iterate, RoundStep, ConsumeStream, WholeFrames;
    FailedUsesNothing(s.sl.db, bytes);
    StreamedMoment(s, hint);
  }

  lemma AppliedRound(s: Sys, t: Sys, hint: Walk)
    requires Inv(s) && s.link.Some? && s.sl.state == RecvBacklogBody && t == RoundStep(s, hint)
    requires t.sl.state in {Streaming, Error} && Expecting(t.sl) && t.sl.replid == s.sl.replid && t.sl.haveOffset
    requires Read(s).head.FullHead? && Read(s).head.backlog.Some?
    requires Read(s).head.backlog.value <= |Read(s).data|
    requires AppliedBacklog(s.sl, Iterate(s.sl, hint).slave, Read(s).data[..Read(s).head.backlog.value])
    ensures SlaveInv(t)
  {
    hide LogInv, MasterInv, GapFree, LinkInv, SlaveInv, Iterate, ConsumeStream, RoundStep, WholeFrames;
    BacklogBytes(s);
    assert s.at.k <= |s.fed| by { KnownAt(s); }
    var bytes := Read(s).data[..Read(s).head.backlog.value];
    AppliedIs(s, hint, bytes);
    Consumes(s, bytes, t);
  }

  lemma FailedUsesNothing(db: Db, d: Bytes)
    ensures !ConsumeStream(db, d).ok ==> ConsumeStream(db, d).used == 0
  {
    hide SplitOf, RunTokens;
  }

  lemma StreamingRoundKeeps(s: Sys, hint: Walk)
    requires Inv(s) && s.link.Some? && s.sl.state == Streaming
    ensures Inv(RoundStep(s, hint))
  {
    hide LogInv, MasterInv, GapFree, Pos, ReplyBytes, Drain, RoundStep, SlaveInv, LoadedOk, ConsumeStream, HeadOk, ReplyOk;
    ReadOk(s);
    DrainKeeps(s.sl, Read(s), s.m.replid, Rest(s));
    PlainRound(s, hint);
    IterateProgress(s.sl, hint);
    var t := RoundStep(s, hint);
    DrainedRound(s, t, hint);
    NotPastStart(t, s.link.value.fd);
    RoundDone(s, t);
  }

  lemma StreamHead(sl: Slave, r: Reply, replid: Bytes, rest: Bytes)
    requires Pos(sl, r, replid, rest) && sl.state == Streaming
    ensures (r.head.ContinueHead? || r.head.FullHead?) && sl.haveOffset && sl.replid == replid
    ensures r.head.offset <= sl.offset
    ensures var o, n := sl.offset - r.head.offset, |sl.stream + sl.input|;
            o + n + |rest| == |r.data| && sl.stream + sl.input == r.data[o..o + n]
  {
    var o := sl.offset - r.head.offset;
    var bytes := sl.stream + sl.input;
    assert bytes == (bytes + rest)[..|bytes|];
    assert r.data[o..][..|bytes|] == r.data[o..o + |bytes|];
  }

  /** What a streaming replica holds unapplied is the log from its offset on. */
  lemma StreamedBytes(s: Sys)
    requires Inv(s) && s.link.Some? && s.sl.state == Streaming
    ensures var bytes := s.sl.stream + s.sl.input;
            && Ours(s) && s.sl.offset + |bytes| <= |s.m.log|
            && bytes == s.m.log[s.sl.offset..s.sl.offset + |bytes|]
  {
    hide LogInv, MasterInv, GapFree, LinkInv, SlaveInv, Pos, ReplyOk, HeadOk;
    ReadOk(s);
    StreamHead(s.sl, Read(s), s.m.replid, Rest(s));
    DataInLog(Read(s), s.m.log, s.sl.offset - Read(s).head.offset, |s.sl.stream + s.sl.input|);
  }

  lemma IterateStreams(sl: Slave, hint: Walk)
    requires sl.state == Streaming
    ensures Iterate(sl, hint) == Drain(sl)
  {
    hide Drain;
  }

  lemma IterateBacklog(sl: Slave, hint: Walk)
    requires sl.state == RecvBacklogBody
    ensures Iterate(sl, hint) == BacklogBodyRound(sl)
  {
    hide BacklogBodyRound;
  }

  lemma DrainOutcome(sl: Slave)
    ensures var t := Drain(sl).slave;
            var c := ConsumeStream(sl.db, sl.stream + sl.input);
            && t.db == c.db && t.offset == sl.offset + (if c.ok then c.used else 0)
            && (sl.state == Streaming ==> t.state == (if c.ok then Streaming else Error))
  {
    hide ConsumeStream;
  }

  lemma DrainedRound(s: Sys, t: Sys, hint: Walk)
    requires Inv(s) && s.link.Some? && s.sl.state == Streaming && t == RoundStep(s, hint)
    requires Expecting(t.sl) && t.sl.replid == s.sl.replid && t.sl.haveOffset
    requires t.sl.state in {Streaming, Error}
    requires var c := ConsumeStream(s.sl.db, s.sl.stream + s.sl.input);
             t.sl.db == c.db && t.sl.offset == s.sl.offset + (if c.ok then c.used else 0)
    ensures SlaveInv(t)
  {
    hide LogInv, MasterInv, GapFree, LinkInv, SlaveInv, Iterate, ConsumeStream, RoundStep, WholeFrames;
    StreamedBytes(s);
    assert s.at.k <= |s.fed| by { KnownAt(s); }
    StreamRound(s, hint);
    Consumes(s, s.sl.stream + s.sl.input, t);
  }

  /** A streaming round. */
  lemma StreamRound(s: Sys, hint: Walk)
    requires s.link.Some? && s.sl.state == Streaming && s.at.k <= |s.fed|
    ensures var t := RoundStep(s, hint);
            var c := ConsumeStream(s.sl.db, s.sl.stream + s.sl.input);
            && SlaveOnly(s, t) && t.loaded == s.loaded && t.link == s.link && t.sl.db == c.db
            && t.sl.offset == s.sl.offset + c.used && t.sl.state == (if c.ok then Streaming else Error)
            && t.at == s.at.(k := s.at.k + WholeFrames(s.fed[s.at.k..], c.used))
  {
    hide Iterate, Drain, RoundStep, ConsumeStream, WholeFrames, SlaveOnly, EncodeAll;
    IterateStreams(s.sl, hint);
    DrainOutcome(s.sl);
    FailedUsesNothing(s.sl.db, s.sl.stream + s.sl.input);
    StreamedMoment(s, hint);
  }

  lemma KnownAt(s: Sys)
    requires SlaveInv(s) && Ours(s)
    ensures s.at.k <= |s.fed|
  {
    hide LoadedOk;
  }

  /** A round past the snapshot moves the recorded moment by the whole frames it consumed. */
  lemma StreamedMoment(s: Sys, hint: Walk)
    requires s.link.Some? && (s.sl.state == RecvBacklogHeader || s.sl.state == RecvBacklogBody || s.sl.state == Streaming)
    requires s.at.k <= |s.fed| && Iterate(s.sl, hint).slave.offset >= s.sl.offset
    ensures var t := RoundStep(s, hint);
            && SlaveOnly(s, t) && t.loaded == s.loaded && t.sl == Iterate(s.sl, hint).slave && t.link == s.link
            && t.at == s.at.(k := s.at.k + WholeFrames(s.fed[s.at.k..], t.sl.offset - s.sl.offset))
  {
    hide Iterate, RoundStep, WholeFrames, EncodeAll, SlaveOnly;
    Streamed(s, hint);
    AdvancedOnly(s, Iterate(s.sl, hint).slave);
  }

  lemma AdvancedOnly(s: Sys, sl: Slave)
    ensures SlaveOnly(s, Advanced(s, sl))
  {
    hide WholeFrames, EncodeAll;
  }

  lemma Streamed(s: Sys, hint: Walk)
    requires s.link.Some? && (s.sl.state == RecvBacklogHeader || s.sl.state == RecvBacklogBody || s.sl.state == Streaming)
    ensures RoundStep(s, hint) == Advanced(s, Iterate(s.sl, hint).slave)
  {
    hide Iterate, Sound, Advanced;
  }

  lemma RoundKeeps(s: Sys, hint: Walk)
    requires Inv(s) && s.link.Some?
    ensures Inv(RoundStep(s, hint))
  {
    hide LogInv, MasterInv, GapFree, SlaveInv, RoundStep;
    match s.sl.state
    case WaitFullresync => WaitRoundKeeps(s, hint);
    case RecvRdbHeader => RdbHeaderRoundKeeps(s, hint);
    case RecvRdbBody => RdbBodyRoundKeeps(s, hint);
    case RecvBacklogHeader => BacklogHeaderRoundKeeps(s, hint);
    case RecvBacklogBody => BacklogBodyRoundKeeps(s, hint);
    case Streaming => StreamingRoundKeeps(s, hint);
    case _ => IdleRoundKeeps(s, hint);
  }

  lemma IdleRoundKeeps(s: Sys, hint: Walk)
    requires Inv(s) && s.link.Some? && s.sl.state in {Init, Error}
    ensures Inv(RoundStep(s, hint))
  {
    hide LogInv, MasterInv, GapFree, Pos, ReplyBytes, RoundStep, LoadedOk, LinkInv;
    ReadOk(s);
    PlainRound(s, hint);
    var t := RoundStep(s, hint);
    assert t == s;
  }
}
