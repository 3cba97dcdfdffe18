/** Left alone, a replica that has been served reads everything, loads its snapshot and settles; and
    exactly when it then streams rather than fails. */
module ReplicationLiveness {
  import opened ByteStrings
  import opened Commands
  import opened Views
  import opened VNodeStorages
  import opened VNodeIndexes
  import opened Databases
  import opened Frames
  import opened Snapshots
  import opened ReplicationSlaves
  import opened ReplicationMasters
  import opened Replication
  import opened ReplicationParser
  import opened ReplicationInvariants
  import opened ReplicationTheorems
  import opened ReplicationConvergence
  import opened ReplicationLimits
  import Recoveries

  // ---- a served replica ---------------------------------------------------------------------------------------

  /** The replica is registered and synced, and every byte sent to it has been read. */
  ghost predicate AllRead(s: Sys) {
    && s.link.Some? && s.link.value.fd in s.m.slaves && s.m.slaves[s.link.value.fd].stage == Synced
    && s.link.value.fd in s.m.out && s.link.value.got == |BytesOn(s, s.link.value.fd)|
  }

  predicate BeforeLoad(sl: Slave) { sl.state in {WaitFullresync, RecvRdbHeader, RecvRdbBody} }

  /** It was sent a sound snapshot, and has loaded it, is about to, or has failed. */
  ghost predicate Promised(s: Sys) {
    && s.link.Some? && s.link.value.fd in s.m.out && s.m.out[s.link.value.fd].head.FullHead?
    && s.link.value.fd in s.sent && Sound(s.sent[s.link.value.fd].snap) && s.link.value.fd in s.marks
    && (s.sl.state == Error || BeforeLoad(s.sl) || s.loaded == Some(Offered(s)))
  }

  /** What its connection has for it. */
  function Offered(s: Sys): Loaded
    requires s.link.Some? && s.link.value.fd in s.sent && s.link.value.fd in s.marks
  {
    var fd := s.link.value.fd;
    Loaded(s.sent[fd].snap, s.sent[fd].waited, s.marks[fd])
  }

  /** All of the feed that is still to come can be applied: to what the snapshot loads as, or to what
      the replica holds. */
  ghost predicate Applicable(s: Sys, hint: Walk)
    requires Promised(s)
  {
    if s.sl.state == Error then false
    else if BeforeLoad(s.sl) then
      Offered(s).start.k <= |s.fed| && Run(Reloaded(Offered(s).snap.db, hint.first), s.fed[Offered(s).start.k..]).ok
    else s.at.k <= |s.fed| && Run(s.sl.db, s.fed[s.at.k..]).ok
  }

  /** Only the replica and what is recorded of it have changed. */
  ghost predicate Alone(s: Sys, t: Sys) { t == s.(sl := t.sl, at := t.at, loaded := t.loaded) }

  lemma ReadReply(s: Sys)
    requires Inv(s) && AllRead(s)
    ensures Whole(Read(s)) && Rest(s) == [] && PlainId(s.m.replid)
  {
    hide MasterInv, SlaveInv, Pos, ReplyBytes, Coherent, ViewOf, Effects;
    var fd := s.link.value.fd;
    assert PeerOk(s.m.slaves[fd], s.m.out[fd], s.m.log) && ReplyOk(s.m.out[fd], s.m.log);
  }

  // ---- one round, state by state ----------------------------------------------------------------------------------

  /** The round keeps the promise and decides nothing that was not decided. */
  ghost predicate Undecided(s: Sys, t: Sys, hint: Walk)
    requires Promised(s)
  {
    Promised(t) && (Applicable(t, hint) <==> Applicable(s, hint))
  }

  lemma WaitAnnounces(sl: Slave, r: Reply, replid: Bytes)
    requires Pos(sl, r, replid, []) && Whole(r) && PlainId(replid) && sl.state == WaitFullresync && r.head.FullHead?
    ensures WaitRound(sl).slave.state == RecvRdbHeader
  {
    hide SimpleString, HandleSyncReply, FullLine, LengthLine, PlainId, FullText;
    assert sl.input + [] == sl.input;
    var x := LengthLine(|r.head.image|) + r.head.image + Tail(r);
    assert ReplyBytes(replid, r) == FullLine(replid, r.head.offset) + x;
    FullLineIs(replid, r.head.offset, x);
    FullTextParses(sl.(input := x), replid, r.head.offset);
  }

  lemma WaitIterates(sl: Slave, hint: Walk)
    requires sl.state == WaitFullresync
    ensures Iterate(sl, hint) == WaitRound(sl)
  {
    hide WaitRound;
  }

  lemma PlainRoundLink(s: Sys, hint: Walk)
    requires s.link.Some?
    ensures var t := RoundStep(s, hint); Alone(s, t) && t.sl == Iterate(s.sl, hint).slave
  {
    hide Iterate, Sound, WholeFrames;
  }

  /** Still before the load: nothing that matters has changed. */
  lemma StillBefore(s: Sys, t: Sys, hint: Walk)
    requires Promised(s) && Alone(s, t) && BeforeLoad(s.sl) && BeforeLoad(t.sl)
    ensures Undecided(s, t, hint)
  {
    hide Sound, Run, Reloaded;
  }

  predicate PastLoad(sl: Slave) { sl.state in {RecvBacklogHeader, RecvBacklogBody, Streaming} }

  /** Past the load, what is left decides before as after; a failure means it could not be applied. */
  lemma StillAfter(s: Sys, t: Sys, hint: Walk)
    requires Promised(s) && Alone(s, t) && PastLoad(s.sl) && t.loaded == s.loaded && s.at.k <= |s.fed|
    requires PastLoad(t.sl) || t.sl.state == Error
    requires PastLoad(t.sl) ==> t.at.k <= |s.fed| && (Run(t.sl.db, s.fed[t.at.k..]).ok <==> Run(s.sl.db, s.fed[s.at.k..]).ok)
    requires t.sl.state == Error ==> !Run(s.sl.db, s.fed[s.at.k..]).ok
    ensures Undecided(s, t, hint)
  {
    hide Sound, Run, Reloaded;
  }

  lemma WaitUndecided(s: Sys, hint: Walk)
    requires Inv(s) && AllRead(s) && Promised(s) && s.sl.state == WaitFullresync
    ensures Undecided(s, RoundStep(s, hint), hint)
  {
    hide GapFree, LogInv, MasterInv, LinkInv, SlaveInv, Pos, ReplyOk, HeadOk, Sound, Iterate, Applicable;
    ReadReply(s);
    ReadOk(s);
    WaitAnnounces(s.sl, Read(s), s.m.replid);
    WaitIterates(s.sl, hint);
    PlainRoundLink(s, hint);
    StillBefore(s, RoundStep(s, hint), hint);
  }

  lemma HeaderUndecided(s: Sys, hint: Walk)
    requires Inv(s) && AllRead(s) && Promised(s) && s.sl.state == RecvRdbHeader
    ensures Undecided(s, RoundStep(s, hint), hint)
  {
    hide GapFree, LogInv, MasterInv, LinkInv, SlaveInv, Pos, ReplyOk, HeadOk, Sound, RdbHeaderRound, Applicable;
    ReadReply(s);
    ReadOk(s);
    RdbHeaderKeeps(s.sl, Read(s), s.m.replid, Rest(s), hint);
    HeaderFails(s, hint);
    PlainRoundLink(s, hint);
    StillBefore(s, RoundStep(s, hint), hint);
  }

  lemma BodyUndecided(s: Sys, hint: Walk)
    requires Inv(s) && AllRead(s) && Promised(s) && s.sl.state == RecvRdbBody
    ensures Undecided(s, RoundStep(s, hint), hint)
  {
    hide GapFree, LogInv, MasterInv, LinkInv, SlaveInv, Pos, ReplyOk, HeadOk, Sound, RdbBodyRound, LoadPath, RoundStep, Image, Applicable;
    ReadReply(s);
    ReadOk(s);
    RdbBodyKeeps(s.sl, Read(s), s.m.replid, Rest(s), hint, s.m.log);
    if Iterate(s.sl, hint).slave.state == Error {
      BodyFails(s, hint);
    }
    PlainRoundLink(s, hint);
    var t := RoundStep(s, hint);
    if t.sl.state == RecvBacklogHeader {
      LoadsHere(s, t, hint);
    } else {
      StillBefore(s, t, hint);
    }
  }

  lemma OfferedImage(s: Sys)
    requires Inv(s) && Promised(s)
    ensures var sn := Offered(s).snap;
            && OrdersOf(sn.orders, sn.db) && Coherent(sn.db.index) && Offered(s).start.k <= |s.fed|
            && s.m.out[s.link.value.fd].head.image == Image(sn.db, sn.orders)
  {
    hide GapFree, LogInv, LinkInv, SlaveInv, Sound, Image, CycleOk, Coherent, ViewOf, Effects, Boundary, OrdersOf;
    assert HeadOk(s, s.link.value.fd, s.m.out[s.link.value.fd].head);
  }

  /** The load gives the snapshot's data back, whatever the replica held. */
  lemma LoadsHere(s: Sys, t: Sys, hint: Walk)
    requires Inv(s) && Promised(s) && s.sl.state == RecvRdbBody && t == RoundStep(s, hint) && t.sl.state == RecvBacklogHeader
    requires t.sl == Iterate(s.sl, hint).slave && Alone(s, t)
    requires t.sl.db == LoadPath(s.m.out[s.link.value.fd].head.image, s.sl.db, hint).db
    ensures Undecided(s, t, hint)
  {
    hide Inv, Image, LoadPath, LoadImage, ImageFits, Run, Reloaded, Iterate, RoundStep, ViewOf, Coherent, OrdersOf, Undecided;
    InvGap(s);
    GapBase(s.m);
    OfferedImage(s);
    RoundIs(s, hint);
    LoadedStep(s, SlaveRound(hint));
    var sn := Offered(s).snap;
    SaveLoad(sn.db, sn.orders, true, s.sl.db, hint.first);
    LoadPathFirst(Image(sn.db, sn.orders), s.sl.db, hint);
    JustLoaded(s, t, hint);
  }

  lemma JustLoaded(s: Sys, t: Sys, hint: Walk)
    requires Promised(s) && Alone(s, t) && BeforeLoad(s.sl) && t.sl.state == RecvBacklogHeader
    requires t.loaded == Some(Offered(s)) && t.at == Offered(s).start && t.sl.db == Reloaded(Offered(s).snap.db, hint.first)
    ensures Undecided(s, t, hint)
  {
    hide Sound, Run, Reloaded;
  }

  lemma LoadPathFirst(img: Bytes, before: Db, hint: Walk)
    requires LoadImage(img, true, before, hint.first).ok
    ensures LoadPath(img, before, hint) == LoadImage(img, true, before, hint.first)
  {
    hide LoadImage;
  }

  lemma BacklogHeaderUndecided(s: Sys, hint: Walk)
    requires Inv(s) && AllRead(s) && Promised(s) && s.sl.state == RecvBacklogHeader
    ensures Undecided(s, RoundStep(s, hint), hint)
  {
    hide GapFree, LogInv, MasterInv, LinkInv, SlaveInv, Pos, ReplyOk, HeadOk, Sound, BacklogHeaderRound, Run, RoundStep, Promised, Undecided;
    ReadReply(s);
    ReadOk(s);
    BacklogHeaderKeeps(s.sl, Read(s), s.m.replid, Rest(s), s.m.log);
    OffsetKnown(s.sl, Read(s), s.m.replid, Rest(s));
    HeaderFails(s, hint);
    PlainRoundLink(s, hint);
    RoundMoves(s, hint);
    StillAfter(s, RoundStep(s, hint), hint);
  }

  /** What a round does to the recorded moment and the load, past the snapshot. */
  lemma RoundMoves(s: Sys, hint: Walk)
    requires s.link.Some? && SlaveInv(s) && Ours(s)
    requires s.sl.state in {RecvBacklogHeader, RecvBacklogBody, Streaming} && Iterate(s.sl, hint).slave.offset >= s.sl.offset
    ensures var t := RoundStep(s, hint);
            && t.loaded == s.loaded && s.at.k <= |s.fed|
            && t.at == s.at.(k := s.at.k + WholeFrames(s.fed[s.at.k..], t.sl.offset - s.sl.offset))
            && (t.sl.offset == s.sl.offset ==> t.at == s.at)
  {
    hide Iterate, SlaveInv, Sound, WholeFrames, RoundStep;
    assert s.at.k <= |s.fed| by { KnownAt(s); }
    StreamedMoment(s, hint);
    Stays(s.fed[s.at.k..]);
  }

  /** Consuming feed bytes succeeds if the commands in them can be applied, and then the rest decides. */
  lemma ConsumeDecides(s: Sys, bytes: Bytes, t: Sys)
    requires LogInv(s) && SlaveInv(s) && Ours(s)
    requires s.sl.offset + |bytes| <= |s.m.log| && bytes == s.m.log[s.sl.offset..s.sl.offset + |bytes|]
    requires var c := ConsumeStream(s.sl.db, bytes);
             && t.sl.db == c.db && t.fed == s.fed && s.at.k <= |s.fed|
             && t.at == s.at.(k := s.at.k + WholeFrames(s.fed[s.at.k..], c.used))
    ensures var c := ConsumeStream(s.sl.db, bytes);
            && (!c.ok ==> !Run(s.sl.db, s.fed[s.at.k..]).ok)
            && (c.ok ==> t.at.k <= |s.fed| && (Run(t.sl.db, t.fed[t.at.k..]).ok <==> Run(s.sl.db, s.fed[s.at.k..]).ok))
  {
    hide LogInv, SlaveInv, EncodeAll, ConsumeStream, Run, WholeFrames, Off;
    KnownId(s);
    var k := s.at.k;
    FedPrefix(s, k, bytes);
    PrefixDecides(s.sl.db, s.fed[k..], |bytes|);
    assert t.at.k <= |s.fed|;
    assert s.fed[k..][t.at.k - k..] == s.fed[t.at.k..];
  }

  lemma PrefixDecides(db: Db, cs: seq<Cmd>, n: nat)
    requires AllKeyed(cs) && n <= |EncodeAll(cs)|
    ensures var c := ConsumeStream(db, EncodeAll(cs)[..n]);
            var j := WholeFrames(cs, c.used);
            && (!c.ok ==> !Run(db, cs).ok)
            && (c.ok ==> (Run(c.db, cs[j..]).ok <==> Run(db, cs).ok))
  {
    hide EncodeAll, ConsumeStream, Run, WholeFrames;
    ConsumeFed(db, cs, n);
    var j := WholeFrames(cs, n);
    assert cs == cs[..j] + cs[j..];
    RunConcat(db, cs[..j], cs[j..]);
    WholeFramesExact(cs, j);
  }

  /** A round that receives backlog bytes, or the last of them and applies them all. */
  lemma BacklogRound(s: Sys, hint: Walk) returns (bytes: Bytes)
    requires Inv(s) && s.link.Some? && s.sl.state == RecvBacklogBody
    ensures Ours(s) && s.at.k <= |s.fed|
    ensures var t := RoundStep(s, hint);
            && t.loaded == s.loaded && t.sl.state in {RecvBacklogBody, Streaming, Error}
            && (t.sl.state == RecvBacklogBody ==> t.at == s.at && t.sl.db == s.sl.db)
            && (t.sl.state != RecvBacklogBody ==>
                  var c := ConsumeStream(s.sl.db, bytes);
                  && s.sl.offset + |bytes| <= |s.m.log| && bytes == s.m.log[s.sl.offset..s.sl.offset + |bytes|]
                  && t.sl.db == c.db && t.at == s.at.(k := s.at.k + WholeFrames(s.fed[s.at.k..], c.used))
                  && t.sl.state == (if c.ok then Streaming else Error))
  {
    hide GapFree, LogInv, MasterInv, LinkInv, SlaveInv, BacklogBodyRound, RoundStep, ConsumeStream, WholeFrames, Iterate, AppliedBacklog;
    BacklogBytes(s);
    bytes := Read(s).data[..Read(s).head.backlog.value];
    assert s.at.k <= |s.fed| by { KnownAt(s); }
    BacklogOutcome(s, hint);
    PlainRoundLink(s, hint);
    if Iterate(s.sl, hint).slave.state == RecvBacklogBody {
      RoundMoves(s, hint);
    } else {
      AppliedIs(s, hint, bytes);
    }
  }

  lemma BacklogOutcome(s: Sys, hint: Walk)
    requires Inv(s) && s.link.Some? && s.sl.state == RecvBacklogBody
    ensures Read(s).head.FullHead? && Read(s).head.backlog.Some? && Read(s).head.backlog.value <= |Read(s).data|
    ensures var t := Iterate(s.sl, hint).slave;
            && t.state in {RecvBacklogBody, Streaming, Error}
            && (t.state == RecvBacklogBody ==> Remembers(s.sl, t))
            && (t.state != RecvBacklogBody ==> AppliedBacklog(s.sl, t, Read(s).data[..Read(s).head.backlog.value]))
  {
    hide GapFree, LogInv, MasterInv, LinkInv, SlaveInv, Pos, ReplyOk, HeadOk, BacklogBodyRound, Iterate, AppliedBacklog;
    IterateBacklog(s.sl, hint);
    ReadOk(s);
    BodyHead(s.sl, Read(s), s.m.replid, Rest(s), s.m.log);
    BacklogBodyKeeps(s.sl, Read(s), s.m.replid, Rest(s), s.m.log);
  }

  lemma BacklogBodyUndecided(s: Sys, hint: Walk)
    requires Inv(s) && AllRead(s) && Promised(s) && s.sl.state == RecvBacklogBody
    ensures Undecided(s, RoundStep(s, hint), hint)
  {
    hide GapFree, LogInv, MasterInv, LinkInv, SlaveInv, Sound, Run, RoundStep, ConsumeStream, WholeFrames, Promised, Undecided, AllRead, Applicable;
    assert s.link.Some? by { PromisedLink(s); }
    var bytes := BacklogRound(s, hint);
    var t := RoundStep(s, hint);
    PlainRoundLink(s, hint);
    if t.sl.state != RecvBacklogBody {
      ConsumeDecides(s, bytes, t);
    }
    StillAfter(s, t, hint);
  }

  lemma StreamingUndecided(s: Sys, hint: Walk)
    requires Inv(s) && AllRead(s) && Promised(s) && s.sl.state == Streaming
    ensures Undecided(s, RoundStep(s, hint), hint)
  {
    hide GapFree, LogInv, MasterInv, LinkInv, SlaveInv, Sound, Drain, Run, RoundStep, ConsumeStream, WholeFrames, Promised, Undecided, AllRead, Iterate, Applicable;
    assert s.link.Some? by { PromisedLink(s); }
    StreamedBytes(s);
    assert s.at.k <= |s.fed| by { KnownAt(s); }
    StreamRound(s, hint);
    ConsumeDecides(s, s.sl.stream + s.sl.input, RoundStep(s, hint));
    PlainRoundLink(s, hint);
    StillAfter(s, RoundStep(s, hint), hint);
  }

  lemma PromisedLink(s: Sys)
    requires Promised(s)
    ensures s.link.Some?
  {
    hide Sound;
  }

  lemma RoundUndecided(s: Sys, hint: Walk)
    requires Inv(s) && AllRead(s) && Promised(s)
    ensures Undecided(s, RoundStep(s, hint), hint)
  {
    hide Inv, AllRead, Sound, Run, Reloaded, RoundStep, Iterate;
    match s.sl.state
    case WaitFullresync => WaitUndecided(s, hint);
    case RecvRdbHeader => HeaderUndecided(s, hint);
    case RecvRdbBody => BodyUndecided(s, hint);
    case RecvBacklogHeader => BacklogHeaderUndecided(s, hint);
    case RecvBacklogBody => BacklogBodyUndecided(s, hint);
    case Streaming => StreamingUndecided(s, hint);
    case Error =>
      PlainRoundLink(s, hint);
      ErrorIterates(s.sl, hint);
    case Init => InitUnlinked(s);
  }

  lemma InitUnlinked(s: Sys)
    requires Inv(s) && s.link.Some?
    ensures s.sl.state != Init
  {
    hide GapFree, LogInv, MasterInv, SlaveInv;
  }

  lemma ErrorIterates(sl: Slave, hint: Walk)
    requires sl.state == Error
    ensures Iterate(sl, hint).slave == sl
  {}

  // ---- coming to rest ------------------------------------------------------------------------------------------------

  lemma SameRead(s: Sys, t: Sys)
    requires Alone(s, t)
    ensures AllRead(s) <==> AllRead(t)
  {
    hide ReplyBytes;
  }

  /** A streaming replica that has drained has nothing more to do. */
  lemma DrainedOnce(sl: Slave)
    requires sl.state == Streaming && Drain(sl).slave.state == Streaming
    ensures Drain(Drain(sl).slave) == Round(Drain(sl).slave, false)
  {
    hide ConsumeStream;
    var a := sl.stream + sl.input;
    var ra := ConsumeStream(sl.db, a);
    ConsumeAppend(sl.db, a, []);
    assert a + [] == a && a[ra.used..] + [] == a[ra.used..];
    assert a[ra.used..][0..] == a[ra.used..];
  }

  /** A round that returns leaves the replica settled or failed. */
  lemma ReturnSettles(sl: Slave, hint: Walk)
    requires !Iterate(sl, hint).again
    ensures var t := Iterate(sl, hint).slave; t.state == Error || Iterate(t, hint) == Round(t, false)
  {
    hide WaitRound, RdbHeaderRound, RdbBodyRound, BacklogHeaderRound, BacklogBodyRound, Drain;
    if sl.state == Streaming {
      StreamingPump(sl, hint);
      if Drain(sl).slave.state == Streaming {
        DrainedOnce(sl);
      }
    } else if Iterate(sl, hint).slave.state != Error {
      QuietRound(sl, hint);
    }
  }

  /** Rounds alone bring it to rest: every round that goes on gets further. */
  lemma Rests(s: Sys, hint: Walk) returns (ss: seq<Sys>, es: seq<Event>)
    requires Inv(s) && AllRead(s)
    ensures Steps(ss, es) && ss[0] == s && (forall i | 0 <= i < |es| :: es[i] == SlaveRound(hint))
    ensures var t := ss[|es|];
            && Inv(t) && Alone(s, t) && (t.sl.state == Error || Settled(t, hint))
            && (Promised(s) ==> Undecided(s, t, hint))
    decreases Rank(s.sl.state), |s.sl.input|
  {
    hide Inv, Iterate, Promised, Applicable, Follows, AllRead, Settled, Step, Enabled;
    InvExpects(s);
    var e := SlaveRound(hint);
    var t := RestsStep(s, hint);
    if Iterate(s.sl, hint).again {
      ss, es := Rests(t, hint);
      OneThenSteps(s, e, t, ss, es);
      ss, es := [s] + ss, [e] + es;
    } else {
      ss, es := [s, t], [e];
    }
  }

  /** One round. */
  lemma RestsStep(s: Sys, hint: Walk) returns (t: Sys)
    requires Inv(s) && AllRead(s)
    ensures Follows(s, SlaveRound(hint), t) && Inv(t) && AllRead(t) && Alone(s, t)
    ensures Promised(s) ==> Undecided(s, t, hint)
    ensures if Iterate(s.sl, hint).again
            then Rank(t.sl.state) < Rank(s.sl.state) || (t.sl.state == s.sl.state && |t.sl.input| < |s.sl.input|)
            else t.sl.state == Error || Settled(t, hint)
  {
    hide Inv, Iterate, Promised, Applicable, Follows;
    InvExpects(s);
    InvGap(s);
    GapBase(s.m);
    RoundIs(s, hint);
    FollowsStep(s, SlaveRound(hint));
    StepKeeps(s, SlaveRound(hint));
    PlainRoundLink(s, hint);
    t := Step(s, SlaveRound(hint));
    SameRead(s, t);
    if Promised(s) {
      RoundUndecided(s, hint);
    }
    IterateProgress(s.sl, hint);
    if !Iterate(s.sl, hint).again {
      ReturnSettles(s.sl, hint);
    }
  }

  lemma InvExpects(s: Sys)
    requires Inv(s)
    ensures Expecting(s.sl)
  {
    hide GapFree, LogInv, MasterInv, LinkInv, LoadedOk;
  }

  /** A replica that has been sent a sound snapshot and its backlog, left alone with what is on its
      connection, comes to rest. It ends streaming if and only if what is left of the feed can be applied,
      and then it shows the feed since its start on top of the snapshot, and has the master's offset. */
  lemma Arrives(s: Sys, hint: Walk) returns (ss: seq<Sys>, es: seq<Event>)
    requires Inv(s) && AllRead(s) && Promised(s)
    ensures Steps(ss, es) && ss[0] == s && (forall i | 0 <= i < |es| :: es[i] == SlaveRound(hint))
    ensures var t := ss[|es|];
            && Inv(t) && Alone(s, t)
            && t.sl.state == (if Applicable(s, hint) then Streaming else Error)
            && (t.sl.state == Streaming ==>
                  && Settled(t, hint) && t.loaded == Some(Offered(s)) && t.sl.offset == |s.m.log| && Offered(s).start.k <= |s.fed|
                  && ViewOf(t.sl.db) == Effects(ViewOf(Offered(s).snap.db), s.fed[Offered(s).start.k..]))
  {
    hide Inv, ViewOf, Follows, Settled, Effects, Run, Reloaded, Sound;
    ss, es := Rests(s, hint);
    var t := ss[|es|];
    if t.sl.state != Error {
      SettledStreams(t, hint);
      SettledAtTip(t, hint);
      SettledShows(t, hint);
      Empty(t);
      EmptyRun(t.sl.db, t.fed[t.at.k..]);
    }
  }

  // ---- the ids it takes ---------------------------------------------------------------------------------------------------

  /** Every vector fed has the dimension of the master's index, and so has every snapshot's index. */
  ghost predicate DimInv(s: Sys) {
    && Uniform(s.fed, Dim(s.db.index))
    && (s.m.child.Saving? ==> KeepsDim(s.child.db, s.db))
    && (forall fd | fd in s.sent :: KeepsDim(s.sent[fd].snap.db, s.db))
  }

  lemma Widened(log: seq<Cmd>, dim: nat)
    requires Uniform(log, 0)
    ensures Uniform(log, dim)
  {
    forall i | 0 <= i < |log| ensures HasKey(log[i]) && (log[i].Vset? ==> DimOf(log[i].vector) == Some(dim)) {
      assert HasKey(log[i]);
    }
  }

  lemma UniformOn(log: seq<Cmd>, a: Db, b: Db)
    requires Uniform(log, Dim(a.index)) && KeepsDim(a, b)
    ensures Uniform(log, Dim(b.index))
  {
    if a.index.ann.None? {
      Widened(log, Dim(b.index));
    }
  }

  lemma UniformSnoc(log: seq<Cmd>, c: Cmd, dim: nat)
    requires Uniform(log, dim) && HasKey(c) && (c.Vset? ==> DimOf(c.vector) == Some(dim))
    ensures Uniform(log + [c], dim)
  {
    var more := log + [c];
    forall i | 0 <= i < |more| ensures HasKey(more[i]) && (more[i].Vset? ==> DimOf(more[i].vector) == Some(dim)) {
      if i < |log| {
        assert HasKey(log[i]);
      }
    }
  }

  lemma DimWrite(s: Sys, c: Cmd, appended: bool, slow: set<Fd>)
    requires DimInv(s) && Coherent(s.db.index) && Apply(s.db, c).done && s.m.base <= |s.m.log|
    ensures DimInv(WriteStep(s, c, appended, slow))
  {
    hide Coherent, Apply, Uniform, ViewOf, FeedFrame, EncodeAll;
    Recoveries.ApplyDim(s.db, c);
    DoneHasKey(s.db, c);
    FeedKeepsRest(s.m, Encode(c), slow);
    var b := Apply(s.db, c).db;
    UniformOn(s.fed, s.db, b);
    UniformSnoc(s.fed, c, Dim(b.index));
  }

  lemma DimStarted(s: Sys, fork: Option<Orders>)
    requires DimInv(s) && ForkFits(s, fork)
    ensures DimInv(Started(s, fork))
  {
    hide Coherent, Uniform, OrdersOf, Image, StartFullsync;
    if s.m.saveStarted || Waiters(s.m) == {} {
      StartedIdle(s.m, ForkOf(s, fork));
    } else {
      StartedOut(s.m, ForkOf(s, fork));
    }
  }

  lemma DimRegistered(s: Sys, fd: Fd)
    requires DimInv(s)
    ensures DimInv(Registered(s, fd))
  {
    hide Uniform;
  }

  lemma DimPsync(s: Sys, fd: Fd, replid: Bytes, offset: int, fork: Option<Orders>)
    requires DimInv(s) && ForkFits(s, fork)
    ensures DimInv(PsyncStep(s, fd, replid, offset, fork))
  {
    hide Uniform, OrdersOf, Image, Started, Registered, Continues;
    if fd in s.m.conns && Continues(s.m, fd, replid, offset) {
      ContinuedRest(s.m, fd, replid, offset, ForkOf(s, fork));
    } else if fd in s.m.conns {
      DimRegistered(s, fd);
      assert ForkFits(Registered(s, fd), fork) by { RegisteredDb(s, fd); }
      DimStarted(Registered(s, fd), fork);
    }
  }

  /** A step that leaves the data and the feed alone, sends nothing, and forks at most the present data. */
  ghost predicate DimAlone(s: Sys, t: Sys) {
    && t.db == s.db && t.fed == s.fed && t.sent == s.sent
    && (t.m.child.Saving? ==> (s.m.child.Saving? && t.child == s.child) || t.child.db == s.db)
  }

  lemma DimSame(s: Sys, t: Sys)
    requires DimInv(s) && DimAlone(s, t)
    ensures DimInv(t)
  {
    hide Uniform;
  }

  lemma DimPlain(s: Sys, e: Event)
    requires s.m.base <= |s.m.log| && Enabled(s, e)
    requires e.Connect? || e.Disconnect? || e.Save? || e.FileSent? || e.ChildLost? || e.SlaveConnects? || e.SlaveReceives?
             || e.SlaveRound? || e.SlaveDrops? || e.SlaveComes?
    ensures DimAlone(s, Step(s, e))
  {
    hide OrdersOf, Image, Coherent, ViewOf, Apply, Iterate, Sound, WholeFrames, AnyActive;
  }

  lemma DimStep(s: Sys, e: Event)
    requires DimInv(s) && Coherent(s.db.index) && s.m.base <= |s.m.log| && Enabled(s, e)
    ensures DimInv(Step(s, e))
  {
    hide DimInv, OrdersOf, Image, PsyncStep, WriteStep, SaveEndsStep, Coherent, ViewOf, Apply, RoundStep, SaveStep, SendFileDone, Open, Close,
      LoseChild, Receive;
    match e
    case Write(c, appended, slow) => DimWrite(s, c, appended, slow);
    case Touch(db) => DimTouch(s, db);
    case Psync(fd, _, _, fork) => DimPsync(s, fd, e.replid, e.offset, fork);
    case SaveEnds(ok, fates, fork) => DimSaveEnds(s, ok, fates, fork);
    case SlaveAsks(fork) =>
      var u := s.(link := Some(s.link.value.(asked := true)));
      var known := s.sl.haveOffset && s.sl.replid != [];
      DimSame(s, u);
      DimPsync(u, s.link.value.fd, if known then s.sl.replid else [63], if known then s.sl.offset else -1, fork);
    case _ =>
      DimPlain(s, e);
      DimSame(s, Step(s, e));
  }

  lemma DimTouch(s: Sys, db: Db)
    requires DimInv(s) && KeepsDim(s.db, db)
    ensures DimInv(s.(db := db))
  {
    hide Uniform;
    UniformOn(s.fed, s.db, db);
  }

  lemma DimSaveEnds(s: Sys, ok: bool, fates: map<Fd, Fate>, fork: Option<Orders>)
    requires DimInv(s) && ForkFits(s, fork) && s.m.child.Saving?
    ensures DimInv(SaveEndsStep(s, ok, fates, fork))
  {
    hide Uniform, OrdersOf, Image, Started, Coherent, StartFullsync, AnyActive;
    if !(s.m.saveStarted && s.m.child.fullsync) {
      DimStarted(s.(m := s.m.(child := Idle, saveStarted := false)), fork);
    }
  }

  /** It holds in every run in which no snapshot was ever sent before the start. */
  lemma {:induction false} DimsKept(ss: seq<Sys>, es: seq<Event>, i: nat)
    requires IsRun(ss, es) && i < |ss| && ss[0].sent == map[]
    ensures DimInv(ss[i])
  {
    hide Enabled, Step, Inv, Uniform;
    if i == 0 {
      NothingFed(ss[0]);
    } else {
      DimsKept(ss, es, i - 1);
      RunKeeps(ss, es, i - 1);
      CoherentAlways(ss[i - 1]);
      assert Follows(ss[i - 1], es[i - 1], ss[i]);
      DimStep(ss[i - 1], es[i - 1]);
    }
  }

  lemma NothingFed(s: Sys)
    requires Initial(s)
    ensures Uniform(s.fed, Dim(s.db.index)) && !s.m.child.Saving?
  {}

  lemma CoherentAlways(s: Sys)
    requires Inv(s)
    ensures Coherent(s.db.index)
  {
    hide GapFree, MasterInv, LinkInv, SlaveInv, Coherent, ViewOf;
  }

  /** Before its load, what a replica needs of the feed can be applied if and only if the ids it asks for
      are still free in the loaded snapshot. */
  lemma ApplicableIds(s: Sys, hint: Walk)
    requires Inv(s) && DimInv(s) && Promised(s) && BeforeLoad(s.sl)
    ensures Offered(s).start.k <= |s.fed|
    ensures var db := Offered(s).snap.db;
            Applicable(s, hint)
            <==> NewIds(s.fed[Offered(s).start.k..], db.index.storage.byKey.Keys) <= FreeIds(Reloaded(db, hint.first).index.storage)
  {
    hide Inv, Coherent, Run, Uniform, NewIds, ImageFits, OrdersOf;
    OfferedImage(s);
    var l := Offered(s);
    var db := Reloaded(l.snap.db, hint.first);
    ReloadCoherent(l.snap.db, hint.first);
    SuffixUniform(s.fed, l.start.k, Dim(s.db.index));
    UniformAccepts(l.snap.db, s.db);
    RunsInFull(db, s.fed[l.start.k..], Dim(s.db.index));
  }

  lemma UniformAccepts(a: Db, b: Db)
    requires KeepsDim(a, b)
    ensures Accepts(a.index, Dim(b.index))
  {}

  lemma SuffixUniform(log: seq<Cmd>, k: nat, dim: nat)
    requires k <= |log| && Uniform(log, dim)
    ensures Uniform(log[k..], dim)
  {
    forall i | 0 <= i < |log[k..]| ensures HasKey(log[k..][i]) && (log[k..][i].Vset? ==> DimOf(log[k..][i].vector) == Some(dim)) {
      assert HasKey(log[k + i]);
    }
  }

  /** A replica that was waiting at the fork and has been served, left alone, ends with exactly the
      master's data and offset if and only if the ids the feed since its start asks for are still
      free in the loaded snapshot; otherwise it fails. */
  lemma FullResyncArrives(s: Sys, hint: Walk) returns (ss: seq<Sys>, es: seq<Event>)
    requires Inv(s) && DimInv(s) && AllRead(s) && Promised(s) && BeforeLoad(s.sl)
    requires Offered(s).waited && Offered(s).start.epoch == s.epoch
    ensures Steps(ss, es) && ss[0] == s && (forall i | 0 <= i < |es| :: es[i] == SlaveRound(hint))
    ensures Offered(s).start.k <= |s.fed|
    ensures var t := ss[|es|];
            var db := Offered(s).snap.db;
            && t.db == s.db
            && (t.sl.state == Streaming
                <==> NewIds(s.fed[Offered(s).start.k..], db.index.storage.byKey.Keys) <= FreeIds(Reloaded(db, hint.first).index.storage))
            && (if t.sl.state == Streaming then ViewOf(t.sl.db) == ViewOf(t.db) && t.sl.offset == |t.m.log| else t.sl.state == Error)
  {
    hide Inv, ViewOf, Follows, Settled, Effects, Run, Reloaded, Sound, NewIds, Applicable, DimInv;
    ApplicableIds(s, hint);
    ss, es := Arrives(s, hint);
    var t := ss[|es|];
    if t.sl.state == Streaming {
      SettledShows(t, hint);
      OwnEpoch(t);
      Convergence(t, hint);
    }
  }

  lemma OwnEpoch(t: Sys)
    requires Inv(t) && t.loaded.Some?
    ensures t.at.epoch == t.loaded.value.start.epoch
  {
    hide GapFree, MasterInv, LinkInv, LogInv, ViewOf, Coherent, Effects, SnapOk;
  }
}
