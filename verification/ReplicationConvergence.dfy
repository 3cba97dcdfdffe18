/** Runs of the replication system, and what a replica holds once it has caught up. */
module ReplicationConvergence {
  import opened ByteStrings
  import opened Commands
  import opened Views
  import opened VNodeStorages
  import opened VNodeIndexes
  import opened Databases
  import opened Frames
  import opened Snapshots
  import opened ReplicationSlaves
  import opened ReplicationMasters
  import opened Replication
  import opened ReplicationParser
  import opened ReplicationInvariants
  import opened ReplicationTheorems

  // ---- every step keeps the invariant ---------------------------------------------------------------------

  lemma PsyncEventKeeps(s: Sys, fd: Fd, replid: Bytes, offset: int, fork: Option<Orders>)
    requires Inv(s) && ForkFits(s, fork) && (s.link.Some? ==> s.link.value.fd != fd)
    ensures Inv(PsyncStep(s, fd, replid, offset, fork))
  {
    hide LogInv, MasterInv, LinkInv, SlaveInv, GapFree, PsyncStep, ForkFits, Continues, OnPsync;
    PsyncKeeps(s, fd, replid, offset, fork);
    PsyncIsOnPsync(s, fd, replid, offset, fork);
  }

  lemma StepKeeps(s: Sys, e: Event)
    requires Inv(s) && Enabled(s, e)
    ensures s.m.base <= |s.m.log| && Inv(Step(s, e))
  {
    hide Inv, WriteStep, PsyncStep, SaveStep, SaveEndsStep, SendFileDone, Open, Close, AskStep, RoundStep, ViewOf, Coherent, Apply;
    GapBase(s.m) by { InvGap(s); }
    match e
    case Write(c, appended, slow) => WriteKeeps(s, c, appended, slow);
    case Touch(db) => TouchKeeps(s, db);
    case Connect(fd) => OpenKeeps(s, fd);
    case Disconnect(fd) => CloseKeeps(s, fd);
    case Psync(fd, replid, offset, fork) => PsyncEventKeeps(s, fd, replid, offset, fork);
    case Save(fork) => SaveKeeps(s, fork);
    case SaveEnds(ok, fates, fork) => SaveEndsKeeps(s, ok, fates, fork);
    case FileSent(fd, ok) => FileSentKeeps(s, fd, ok);
    case ChildLost => LostKeeps(s);
    case SlaveConnects(fd) => ConnectsKeeps(s, fd);
    case SlaveAsks(fork) => AsksKeeps(s, fork);
    case SlaveReceives(n) => ReceivesKeeps(s, n);
    case SlaveRound(hint) => RoundKeeps(s, hint);
    case SlaveDrops => DropsKeeps(s);
    case SlaveComes(replid, offset, db) => ComesKeeps(s, replid, offset, db);
  }

  lemma InvGap(s: Sys)
    requires Inv(s)
    ensures GapFree(s.m)
  {
    hide GapFree, LogInv, MasterInv, LinkInv, SlaveInv;
  }

  // ---- runs ---------------------------------------------------------------------------------------------------

  /** A master just started on any recovered data, and a replica process holding anything. */
  ghost predicate Initial(s: Sys) {
    && s.m == Master(s.m.replid, s.m.cap, [], 0, {}, map[], map[], false, 0, false, Idle)
    && s.m.replid != [63] && PlainId(s.m.replid)
    && Coherent(s.db.index) && s.fed == [] && s.since == 0 && s.from == ViewOf(s.db)
    && s.sl.state == Init && !Ours(s) && s.sl.stream == [] && s.link == None && s.loaded.None?
  }

  /** A run: its states and the events between them. */
  ghost predicate IsRun(ss: seq<Sys>, es: seq<Event>) { Steps(ss, es) && Initial(ss[0]) }

  ghost predicate Steps(ss: seq<Sys>, es: seq<Event>) {
    |ss| == |es| + 1 && forall i | 0 <= i < |es| :: Follows(ss[i], es[i], ss[i + 1])
  }

  ghost predicate Follows(s: Sys, e: Event, t: Sys) {
    s.m.base <= |s.m.log| && Enabled(s, e) && t == Step(s, e)
  }

  lemma InitialInv(s: Sys)
    requires Initial(s)
    ensures Inv(s)
  {
    hide Coherent, ViewOf;
    assert Waiters(s.m) == {};
    assert EncodeAll([]) == [];
  }

  /** What every step keeps holds in every state of every run. */
  lemma {:induction false} RunKeeps(ss: seq<Sys>, es: seq<Event>, i: nat)
    requires IsRun(ss, es) && i < |ss|
    ensures Inv(ss[i])
  {
    hide Initial, Inv, Enabled, Step;
    if i == 0 {
      InitialInv(ss[0]);
    } else {
      RunKeeps(ss, es, i - 1);
      assert Follows(ss[i - 1], es[i - 1], ss[i]);
      StepKeeps(ss[i - 1], es[i - 1]);
    }
  }

  lemma FollowsStep(s: Sys, e: Event)
    requires Inv(s) && Enabled(s, e)
    ensures s.m.base <= |s.m.log| && Follows(s, e, Step(s, e))
  {
    hide Inv, Enabled, Step;
    StepKeeps(s, e);
  }

  lemma OneThenSteps(s: Sys, e: Event, t: Sys, rest: seq<Sys>, more: seq<Event>)
    requires Follows(s, e, t) && Steps(rest, more) && rest[0] == t
    ensures Steps([s] + rest, [e] + more)
  {
    hide Follows;
    var ss, es := [s] + rest, [e] + more;
    forall i | 0 <= i < |es| ensures Follows(ss[i], es[i], ss[i + 1]) {
      if i > 0 {
        assert Follows(rest[i - 1], more[i - 1], rest[i]);
      }
    }
  }

  // ---- a replica that has consumed everything -------------------------------------------------------------------

  /** The replica is still registered, every byte sent to it has been read, and its parser waits for more. */
  ghost predicate Settled(s: Sys, hint: Walk) {
    && s.link.Some? && s.link.value.fd in s.m.slaves && s.m.slaves[s.link.value.fd].stage == Synced
    && s.link.value.fd in s.m.out && s.link.value.got == |BytesOn(s, s.link.value.fd)|
    && Iterate(s.sl, hint) == Round(s.sl, false)
  }

  /** Settled, the replica has left every header and body behind: it is streaming or has failed. */
  lemma SettledStreams(s: Sys, hint: Walk)
    requires Inv(s) && Settled(s, hint)
    ensures s.sl.state == Streaming || s.sl.state == Error
  {
    SettledReply(s, hint);
    ReadOk(s);
    hide GapFree, LogInv, MasterInv, LinkInv, SlaveInv, Pos, ReplyOk, Iterate, HeadOk;
    var sl, r := s.sl, Read(s);
    match sl.state
    case WaitFullresync => NoWait(sl, r, s.m.replid);
    case RecvRdbHeader => NoHeader(sl, r, s.m.replid, hint);
    case RecvRdbBody => NoBody(sl, r, s.m.replid, hint);
    case RecvBacklogHeader => NoBacklogHeader(sl, r, s.m.replid, hint);
    case RecvBacklogBody => NoBody(sl, r, s.m.replid, hint);
    case _ =>
  }

  /** A synced replica's reply has no error in it and says how long its backlog is. */
  ghost predicate Whole(r: Reply) {
    r.err == [] && (r.head.ContinueHead? || (r.head.FullHead? && r.head.backlog.Some? && r.head.backlog.value <= |r.data|))
  }

  lemma SettledReply(s: Sys, hint: Walk)
    requires Inv(s) && Settled(s, hint)
    ensures Whole(Read(s)) && Rest(s) == [] && PlainId(s.m.replid)
    ensures var o := Read(s).head.offset; o <= |s.m.log| && Read(s).data == s.m.log[o..]
  {
    hide MasterInv, SlaveInv, Pos, Iterate, ReplyBytes, Coherent, ViewOf, Effects;
    var fd := s.link.value.fd;
    assert PeerOk(s.m.slaves[fd], s.m.out[fd], s.m.log) && ReplyOk(s.m.out[fd], s.m.log);
  }

  lemma NoWait(sl: Slave, r: Reply, replid: Bytes)
    requires Pos(sl, r, replid, []) && Whole(r) && PlainId(replid) && sl.state == WaitFullresync
    ensures WaitRound(sl) != Round(sl, false)
  {
    hide SimpleString, HandleSyncReply, FullLine, LengthLine, PlainId, FullText;
    assert sl.input + [] == sl.input;
    if r.head.ContinueHead? {
      assert ReplyBytes(replid, r) == PLUS_CONTINUE + r.data;
      ContinueIs(r.data);
      ContinueReply(sl);
    } else {
      var x := LengthLine(|r.head.image|) + r.head.image + Tail(r);
      assert ReplyBytes(replid, r) == FullLine(replid, r.head.offset) + x;
      FullLineIs(replid, r.head.offset, x);
      FullTextParses(sl.(input := x), replid, r.head.offset);
    }
  }

  lemma NoHeader(sl: Slave, r: Reply, replid: Bytes, hint: Walk)
    requires Pos(sl, r, replid, []) && Whole(r) && sl.state == RecvRdbHeader
    ensures RdbHeaderRound(sl, hint) != Round(sl, false)
  {
    hide BulkHeader, LengthLine, LeadingInt, FinishRdb;
    assert sl.input + [] == sl.input;
    var x := r.head.image + Tail(r);
    assert sl.input == LengthLine(|r.head.image|) + x;
    BulkHeaderOf(|r.head.image|, x);
    LeadingDecimal(|r.head.image|);
    FinishMoves(sl.(input := x, rdbLeft := |r.head.image|, state := RecvRdbBody), hint);
  }

  lemma FinishMoves(sl: Slave, hint: Walk)
    ensures FinishRdb(sl, hint).slave.state in {Error, RecvBacklogHeader}
  {
    hide LoadPath;
  }

  lemma NoBody(sl: Slave, r: Reply, replid: Bytes, hint: Walk)
    requires Pos(sl, r, replid, []) && Whole(r) && Expecting(sl) && (sl.state == RecvRdbBody || sl.state == RecvBacklogBody)
    ensures Iterate(sl, hint) != Round(sl, false)
  {
    hide FinishRdb, TakeRdb, TakeBacklog, ConsumeStream, FileOf;
    if sl.state == RecvRdbBody {
      assert FileOf(sl) + sl.input == r.head.image + Tail(r);
      assert |FileOf(sl)| + |sl.input| == |r.head.image| + |Tail(r)|;
      FinishMoves(TakeRdb(sl), hint);
    } else {
      assert |sl.backlog| + |sl.input| == |r.data|;
    }
  }

  lemma NoBacklogHeader(sl: Slave, r: Reply, replid: Bytes, hint: Walk)
    requires Pos(sl, r, replid, []) && Whole(r) && sl.state == RecvBacklogHeader
    ensures BacklogHeaderRound(sl) != Round(sl, false)
  {
    hide BulkHeader, LengthLine, LeadingInt;
    assert sl.input + [] == sl.input;
    BulkHeaderOf(r.head.backlog.value, r.data);
    LeadingDecimal(r.head.backlog.value);
  }

  /** A settled, streaming replica has applied every command of the feed. */
  lemma SettledAtTip(s: Sys, hint: Walk)
    requires Inv(s) && Settled(s, hint) && s.sl.state == Streaming
    ensures Ours(s) && s.at.k == |s.fed| && s.sl.offset == |s.m.log| && s.sl.stream == [] && s.sl.input == []
  {
    hide GapFree, MasterInv, LogInv, SlaveInv, Pos, ReplyOk, HeadOk, ConsumeStream, Drain, BytesOn, ReplyBytes, ImageSizes, PlainId;
    SettledReply(s, hint);
    ReadOk(s);
    IterateStreams(s.sl, hint);
    StreamHead(s.sl, Read(s), s.m.replid, Rest(s));
    var bytes := s.sl.stream + s.sl.input;
    assert bytes == s.m.log[s.sl.offset..];
    NothingLeft(s.sl, bytes);
    AllConsumed(s, bytes);
  }

  lemma AllConsumed(s: Sys, bytes: Bytes)
    requires LogInv(s) && SlaveInv(s) && Ours(s) && s.sl.offset <= |s.m.log| && bytes == s.m.log[s.sl.offset..]
    requires ConsumeStream(s.sl.db, bytes).ok && ConsumeStream(s.sl.db, bytes).used == 0
    ensures s.at.k == |s.fed| && s.sl.offset == |s.m.log| && bytes == []
  {
    hide ViewOf, Coherent, Effects, LoadedOk, ConsumeStream, Run, EncodeAll;
    var cs := s.fed[s.at.k..];
    FedPrefix(s, s.at.k, bytes);
    assert |bytes| == |EncodeAll(cs)| by { OffRest(s.fed, s.at.k); }
    ConsumeFed(s.sl.db, cs, |bytes|);
    assert cs[..|cs|] == cs;
    WholeFramesExact(cs, |cs|);
    NoBytesNoCommands(cs);
    OffAll(s.fed);
  }

  lemma NoBytesNoCommands(cs: seq<Cmd>)
    ensures cs != [] ==> |EncodeAll(cs)| > 0
  {
    if cs != [] {
      assert cs[..|cs|] == cs;
      Longer(cs, 0, |cs|);
    }
  }

  lemma NothingLeft(sl: Slave, bytes: Bytes)
    requires sl.state == Streaming && Drain(sl) == Round(sl, false) && bytes == sl.stream + sl.input
    ensures ConsumeStream(sl.db, bytes).ok && ConsumeStream(sl.db, bytes).used == 0 && sl.input == []
  {
    hide ConsumeStream;
  }

  /** What a replica shows once it has consumed everything sent to it: the feed since its start offset, on
      top of the snapshot it loaded. This holds of every load, whoever was waiting at the fork, and
      whatever escaped the feed. */
  lemma SettledShows(s: Sys, hint: Walk)
    requires Inv(s) && Settled(s, hint) && s.sl.state == Streaming && s.loaded.Some?
    ensures s.loaded.value.start.k <= |s.fed| && s.sl.offset == |s.m.log|
    ensures ViewOf(s.sl.db) == Effects(ViewOf(s.loaded.value.snap.db), s.fed[s.loaded.value.start.k..])
    ensures SnapOk(s, s.loaded.value.snap) && LoadedOk(s, s.loaded.value)
  {
    hide GapFree, MasterInv, LinkInv, LogInv, ViewOf, Coherent, Settled;
    SettledAtTip(s, hint);
    LoadedCoherentDb(s);
    assert s.fed[s.at.k..] == [];
  }

  /** Convergence: a replica that was waiting when its snapshot was forked, has loaded it, and has
      consumed everything sent to it, shows clients exactly what the master shows, provided no write
      escaped the feed since the moment its start offset stands for. */
  lemma Convergence(s: Sys, hint: Walk)
    requires Inv(s) && Settled(s, hint) && s.sl.state == Streaming
    requires Trusted(s) && s.at.epoch == s.epoch
    ensures ViewOf(s.sl.db) == ViewOf(s.db) && s.sl.offset == |s.m.log|
  {
    hide GapFree, MasterInv, LinkInv, ViewOf, Coherent, Settled, SlaveInv, LogInv, OrdersOf, Effects;
    SettledShows(s, hint);
    SnapshotOnTrack(s, s.loaded.value.start, s.loaded.value.snap);
  }

  // ---- over whole runs ---------------------------------------------------------------------------------------------

  /** A change of the data that is not fed: nobody is registered, or the append failed. */
  predicate Unfed(s: Sys, e: Event) { e.Write? && !(e.appended && s.m.slaves != map[]) }

  /** The replica reads the announcement of a full resync, or another one takes its place. */
  ghost predicate Announces(s: Sys, e: Event) {
    e.SlaveComes? || (e.SlaveRound? && s.sl.state == WaitFullresync && Iterate(s.sl, e.hint).slave.state == RecvRdbHeader)
  }

  lemma StartedEpoch(s: Sys, fork: Option<Orders>)
    requires ForkFits(s, fork)
    ensures var t := Started(s, fork);
            t.epoch == s.epoch && t.loaded == s.loaded && t.at == s.at && t.sl == s.sl && t.db == s.db
  {
    hide OrdersOf, StartFullsync, Image;
  }

  lemma EpochStep(s: Sys, e: Event)
    requires s.m.base <= |s.m.log| && Enabled(s, e)
    ensures Step(s, e).epoch == s.epoch + if Unfed(s, e) then 1 else 0
  {
    hide OrdersOf, StartFullsync, Image, Apply, FeedFrame, Iterate, ViewOf, Coherent, Sound, Started, SendToWaiters, OnPsync;
    match e
    case Psync(fd, _, _, fork) => PsyncEpoch(s, fd, e.replid, e.offset, fork);
    case SaveEnds(_, _, fork) => StartedEpoch(s.(m := s.m.(child := Idle, saveStarted := false)), fork);
    case SlaveAsks(fork) => AskEpoch(s, fork);
    case _ =>
  }

  lemma PsyncEpoch(s: Sys, fd: Fd, replid: Bytes, offset: int, fork: Option<Orders>)
    requires ForkFits(s, fork)
    ensures var t := PsyncStep(s, fd, replid, offset, fork);
            t.epoch == s.epoch && t.loaded == s.loaded && t.at == s.at && t.sl == s.sl
  {
    hide OrdersOf, OnPsync, Started, Continues, WantsFullsync;
    StartedEpoch(Registered(s, fd), fork);
  }

  lemma AskEpoch(s: Sys, fork: Option<Orders>)
    requires ForkFits(s, fork) && s.link.Some?
    ensures var t := AskStep(s, fork); t.epoch == s.epoch && t.loaded == s.loaded && t.at == s.at && t.sl == s.sl
  {
    hide PsyncStep, OrdersOf;
    var known := s.sl.haveOffset && s.sl.replid != [];
    PsyncEpoch(s.(link := Some(s.link.value.(asked := true))), s.link.value.fd,
               if known then s.sl.replid else [63], if known then s.sl.offset else -1, fork);
  }

  /** The epoch stands still exactly while no write escapes the feed. */
  lemma {:induction false} EpochCounts(ss: seq<Sys>, es: seq<Event>, i: nat, j: nat)
    requires IsRun(ss, es) && i <= j < |ss|
    ensures ss[i].epoch <= ss[j].epoch
    ensures ss[i].epoch == ss[j].epoch <==> forall p | i <= p < j :: !Unfed(ss[p], es[p])
  {
    hide Initial, Enabled, Step;
    if i < j {
      EpochCounts(ss, es, i, j - 1);
      assert Follows(ss[j - 1], es[j - 1], ss[j]);
      EpochStep(ss[j - 1], es[j - 1]);
    }
  }

  /** Nothing but a new announcement takes a load back: not a lost link at any byte, not a reconnect,
      a +CONTINUE, a failed command or an escaped write. */
  lemma LoadStep(s: Sys, e: Event)
    requires Inv(s) && Enabled(s, e) && s.loaded.Some? && !Announces(s, e)
    ensures s.m.base <= |s.m.log|
    ensures Step(s, e).loaded == s.loaded && Step(s, e).at.epoch == s.at.epoch
  {
    hide OrdersOf, StartFullsync, Image, Apply, FeedFrame, Iterate, ViewOf, Coherent, Sound, Started, SendToWaiters, OnPsync,
      MasterInv, SlaveInv, LogInv, Pos;
    GapBase(s.m);
    match e
    case Psync(fd, _, _, fork) => PsyncEpoch(s, fd, e.replid, e.offset, fork);
    case SaveEnds(_, _, fork) => StartedEpoch(s.(m := s.m.(child := Idle, saveStarted := false)), fork);
    case SlaveAsks(fork) => AskEpoch(s, fork);
    case SlaveRound(_) => assert AtStart(s, s.link.value.fd);
    case _ =>
  }

  lemma {:induction false} LoadKept(ss: seq<Sys>, es: seq<Event>, i: nat, j: nat)
    requires IsRun(ss, es) && i <= j < |ss| && ss[i].loaded.Some?
    requires forall p | i <= p < j :: !Announces(ss[p], es[p])
    ensures ss[j].loaded == ss[i].loaded && ss[j].at.epoch == ss[i].at.epoch
  {
    hide Initial, Enabled, Step, Announces, Inv;
    if i < j {
      LoadKept(ss, es, i, j - 1);
      RunKeeps(ss, es, j - 1);
      assert Follows(ss[j - 1], es[j - 1], ss[j]);
      LoadStep(ss[j - 1], es[j - 1]);
    }
  }

  /** Partial resync: a replica in step with the feed stays so over any number of lost links, cut
      anywhere, that +CONTINUE repairs. Once it has caught up it shows the master's data. */
  lemma PartialResync(ss: seq<Sys>, es: seq<Event>, i: nat, j: nat, hint: Walk)
    requires IsRun(ss, es) && i <= j < |ss|
    requires Trusted(ss[i]) && ss[i].at.epoch == ss[i].epoch
    requires forall p | i <= p < j :: !Announces(ss[p], es[p]) && !Unfed(ss[p], es[p])
    requires Settled(ss[j], hint) && ss[j].sl.state == Streaming
    ensures ViewOf(ss[j].sl.db) == ViewOf(ss[j].db) && ss[j].sl.offset == |ss[j].m.log|
  {
    hide IsRun, Announces, Settled, ViewOf, Inv;
    RunKeeps(ss, es, j);
    LoadKept(ss, es, i, j);
    EpochCounts(ss, es, i, j);
    Convergence(ss[j], hint);
  }

  /** The replica finishes loading the snapshot it was sent. */
  ghost predicate FinishesLoad(s: Sys, e: Event) {
    && e.SlaveRound? && s.link.Some? && s.sl.state in {RecvRdbHeader, RecvRdbBody}
    && Iterate(s.sl, e.hint).slave.state == RecvBacklogHeader
  }

  /** Full resync: the replica was waiting when its save was forked, its start offset was taken at
      moment p, and no write escaped the feed since. However the fork, the transfer and the feed
      interleaved, and however often the link was lost after the load, once it has caught up it
      shows the master's data. */
  lemma FullResync(ss: seq<Sys>, es: seq<Event>, p: nat, i: nat, j: nat, hint: Walk)
    requires IsRun(ss, es) && p <= i < j < |ss|
    requires FinishesLoad(ss[i], es[i])
    requires var fd := ss[i].link.value.fd;
             && fd in ss[i].marks && ss[i].marks[fd] == Now(ss[p])
             && fd in ss[i].sent && ss[i].sent[fd].waited && Sound(ss[i].sent[fd].snap)
    requires forall q | p <= q < j :: !Unfed(ss[q], es[q])
    requires forall q | i < q < j :: !Announces(ss[q], es[q])
    requires Settled(ss[j], hint) && ss[j].sl.state == Streaming
    ensures ViewOf(ss[j].sl.db) == ViewOf(ss[j].db) && ss[j].sl.offset == |ss[j].m.log|
  {
    hide Announces, Settled, ViewOf, Inv, Initial, Sound;
    RunKeeps(ss, es, i);
    assert Follows(ss[i], es[i], ss[i + 1]);
    LoadedStep(ss[i], es[i]);
    EpochCounts(ss, es, p, i + 1);
    PartialResync(ss, es, i + 1, j, hint);
  }

  lemma LoadedStep(s: Sys, e: Event)
    requires Inv(s) && Enabled(s, e) && FinishesLoad(s, e)
    ensures s.m.base <= |s.m.log| && s.link.value.fd in s.marks
    ensures var fd := s.link.value.fd;
            && Step(s, e).loaded == (if fd in s.sent && Sound(s.sent[fd].snap)
                                     then Some(Loaded(s.sent[fd].snap, s.sent[fd].waited, s.marks[fd])) else None)
            && Step(s, e).at == s.marks[fd]
  {
    hide Iterate, Sound, ViewOf, Coherent, MasterInv, SlaveInv, LogInv, Pos;
    GapBase(s.m);
    assert AtStart(s, s.link.value.fd);
  }

  /** Over every run: whatever happened between a sound load and the moment the replica has caught up,
      it shows the feed since its start on top of the snapshot. */
  lemma LoadedRunShows(ss: seq<Sys>, es: seq<Event>, i: nat, j: nat, hint: Walk)
    requires IsRun(ss, es) && i < j < |ss| && FinishesLoad(ss[i], es[i])
    requires var fd := ss[i].link.value.fd; fd in ss[i].sent && Sound(ss[i].sent[fd].snap)
    requires forall q | i < q < j :: !Announces(ss[q], es[q])
    requires Settled(ss[j], hint) && ss[j].sl.state == Streaming
    ensures var fd := ss[i].link.value.fd;
            && fd in ss[i].marks && ss[i].marks[fd].k <= |ss[j].fed|
            && ss[j].loaded == Some(Loaded(ss[i].sent[fd].snap, ss[i].sent[fd].waited, ss[i].marks[fd]))
            && ViewOf(ss[j].sl.db) == Effects(ViewOf(ss[i].sent[fd].snap.db), ss[j].fed[ss[i].marks[fd].k..])
  {
    hide Announces, Settled, ViewOf, Inv, Initial, Sound, Effects;
    RunKeeps(ss, es, i);
    assert Follows(ss[i], es[i], ss[i + 1]);
    LoadedStep(ss[i], es[i]);
    LoadKept(ss, es, i + 1, j);
    RunKeeps(ss, es, j);
    SettledShows(ss[j], hint);
  }

  // ---- every start offset is the tip of an earlier moment -------------------------------------------------------------

  /** The marks after a step: those before it, the shared one, or the present. */
  ghost predicate MarksFrom(s: Sys, t: Sys) {
    && (forall fd | fd in t.marks ::
          (fd in s.marks && t.marks[fd] == s.marks[fd]) || t.marks[fd] == Now(s) || (s.m.active && t.marks[fd] == s.activeMark))
    && (t.m.active ==> t.activeMark == Now(s) || (s.m.active && t.activeMark == s.activeMark))
  }

  lemma StartedMarks(s: Sys, fork: Option<Orders>)
    requires ForkFits(s, fork)
    ensures MarksFrom(s, Started(s, fork))
  {
    hide OrdersOf, Image, Waiters;
  }

  lemma RegisteredMarks(s: Sys, fd: Fd)
    ensures MarksFrom(s, Registered(s, fd)) && Now(Registered(s, fd)) == Now(s)
    ensures Registered(s, fd).activeMark == s.activeMark && (Registered(s, fd).m.active ==> s.m.active)
  {}

  lemma PsyncMarks(s: Sys, fd: Fd, replid: Bytes, offset: int, fork: Option<Orders>)
    requires ForkFits(s, fork)
    ensures MarksFrom(s, PsyncStep(s, fd, replid, offset, fork))
  {
    hide OrdersOf, Started, Registered, Continues, WantsFullsync;
    if fd in s.m.conns && !Continues(s.m, fd, replid, offset) {
      RegisteredMarks(s, fd);
      assert ForkFits(Registered(s, fd), fork) by { RegisteredDb(s, fd); }
      StartedMarks(Registered(s, fd), fork);
    } else if fd in s.m.conns {
      ContinuedRest(s.m, fd, replid, offset, ForkOf(s, fork));
    }
  }

  lemma StepMarks(s: Sys, e: Event)
    requires s.m.base <= |s.m.log| && Enabled(s, e)
    ensures MarksFrom(s, Step(s, e))
  {
    hide OrdersOf, StartFullsync, Image, Apply, Iterate, ViewOf, Coherent, Sound, Started, OnPsync, PsyncStep, FeedFrame, SendFileDone,
      SendToWaiters, SaveCommand, Open, Close;
    match e
    case Psync(fd, _, _, fork) => PsyncMarks(s, fd, e.replid, e.offset, fork);
    case SaveEnds(_, fates, fork) =>
      StartedMarks(s.(m := s.m.(child := Idle, saveStarted := false)), fork);
      SendsNoNewCycle(s.m.(child := Idle, saveStarted := false), s.m.child.image, fates);
    case SlaveAsks(fork) =>
      var known := s.sl.haveOffset && s.sl.replid != [];
      PsyncMarks(s.(link := Some(s.link.value.(asked := true))), s.link.value.fd,
                 if known then s.sl.replid else [63], if known then s.sl.offset else -1, fork);
    case Write(c, _, slow) => FeedKeepsRest(s.m, Encode(c), slow);
    case Connect(fd) => NoNewCycle(s.m, fd, true, ForkFailed);
    case Disconnect(fd) => NoNewCycle(s.m, fd, true, ForkFailed);
    case SlaveConnects(fd) => NoNewCycle(s.m, fd, true, ForkFailed);
    case FileSent(fd, ok) => NoNewCycle(s.m, fd, ok, ForkFailed);
    case Save(fork) => NoNewCycle(s.m, 0, true, ForkOf(s, fork));
    case _ =>
  }

  lemma NoNewCycle(m: Master, fd: Fd, ok: bool, fork: Fork)
    requires m.base <= |m.log|
    ensures Open(m, fd).active || Close(m, fd).active || SendFileDone(m, fd, ok).active || SaveCommand(m, fork).active ==> m.active
  {
    hide AnyActive;
  }

  lemma SendsNoNewCycle(m: Master, image: Bytes, fates: map<Fd, Fate>)
    ensures SendToWaiters(m, image, fates).active ==> m.active
  {
    hide AnyActive, Unsent;
  }

  ghost predicate Past(ss: seq<Sys>, i: nat, mk: Mark)
    requires i < |ss|
  {
    exists p | 0 <= p <= i :: mk == Now(ss[p])
  }

  lemma {:induction false} MarksPast(ss: seq<Sys>, es: seq<Event>, i: nat)
    requires IsRun(ss, es) && i < |ss| && ss[0].marks == map[]
    ensures forall fd | fd in ss[i].marks :: Past(ss, i, ss[i].marks[fd])
    ensures ss[i].m.active ==> Past(ss, i, ss[i].activeMark)
  {
    hide Enabled, Step;
    if i > 0 {
      MarksPast(ss, es, i - 1);
      var s, t := ss[i - 1], ss[i];
      assert Follows(s, es[i - 1], t);
      StepMarks(s, es[i - 1]);
      assert Past(ss, i, Now(s));
      assert forall mk | Past(ss, i - 1, mk) :: Past(ss, i, mk);
    }
  }
}
