/** ReplicationMaster: replica registration, the fullsync snapshot cycle, and the feed. */
module ReplicationMasters {
  import opened ByteStrings
  import opened ReplicationBacklogs

  /** A client connection, identified for its whole life. */
  type Fd = nat

  datatype Stage = WaitRdb | SendingRdb | Synced

  datatype Peer = Peer(stage: Stage, start: nat)

  /** What the master has sent a connection since its last PSYNC, in order: a first reply, stream
      bytes, a final error. The snapshot file is part of the first reply once its sending starts. */
  datatype Head =
    | NoHead
    | ContinueHead(offset: nat)
    | FullHead(offset: nat, image: Bytes, backlog: Option<nat>)
    | BrokenHead(offset: nat, length: nat)   // announced, but the file could not be opened

  datatype Reply = Reply(head: Head, data: Bytes, err: Bytes)

  const SILENT := Reply(NoHead, [], [])

  /** The forked save: which path it writes, and the image of the data at the fork. */
  datatype Child = Idle | Saving(fullsync: bool, image: Bytes)

  datatype Master = Master(
    replid: Bytes, cap: nat,
    log: Bytes, base: nat,                       // everything ever fed; where the retained part starts
    conns: set<Fd>, slaves: map<Fd, Peer>, out: map<Fd, Reply>,
    active: bool, activeStart: nat, saveStarted: bool,   // fullsync_active_, fullsync_backlog_start_, save_started_for_fullsync_
    child: Child)                                // the running save

  /** What fork() does when a save is attempted. */
  datatype Fork = Forked(image: Bytes) | ForkFailed

  /** What happens when the finished snapshot is about to be sent to a waiter. */
  datatype Fate = Missing | Unopened

  // ---- wire text --------------------------------------------------------------------------------------

  const PLUS_CONTINUE: Bytes := [43, 67, 79, 78, 84, 73, 78, 85, 69, 13, 10]
  const PLUS_FULLRESYNC: Bytes := [43, 70, 85, 76, 76, 82, 69, 83, 89, 78, 67, 32]
  const ERR: Bytes := [45, 69, 82, 82, 32]
  const OVERFLOW: Bytes := ERR + [98, 97, 99, 107, 108, 111, 103, 32, 111, 118, 101, 114, 102, 108, 111, 119] + CRLF
  const SAVE_FAILED: Bytes := ERR + [102, 117, 108, 108, 115, 121, 110, 99, 32, 115, 97, 118, 101, 32, 102, 97, 105, 108, 101, 100] + CRLF
  const RDB_MISSING: Bytes := ERR + [102, 117, 108, 108, 115, 121, 110, 99, 32, 114, 100, 98, 32, 109, 105, 115, 115, 105, 110, 103] + CRLF
  const SENDFILE_FAILED: Bytes := ERR + [115, 101, 110, 100, 102, 105, 108, 101, 32, 102, 97, 105, 108, 101, 100] + CRLF
  const BACKLOG_LOST: Bytes := ERR + [98, 97, 99, 107, 108, 111, 103, 32, 108, 111, 115, 116] + CRLF

  function LengthLine(n: nat): Bytes { [DOLLAR] + Decimal(n) + CRLF }

  function FullLine(replid: Bytes, offset: nat): Bytes {
    PLUS_FULLRESYNC + replid + [SPACE] + Decimal(offset) + CRLF
  }

  function HeadBytes(replid: Bytes, h: Head): Bytes {
    match h
    case NoHead => []
    case ContinueHead(_) => PLUS_CONTINUE
    case FullHead(offset, image, backlog) =>
      FullLine(replid, offset) + LengthLine(|image|) + image
      + (if backlog.None? then [] else LengthLine(backlog.value))
    case BrokenHead(offset, length) => FullLine(replid, offset) + LengthLine(length)
  }

  /** The bytes on the connection. */
  function ReplyBytes(replid: Bytes, r: Reply): Bytes { HeadBytes(replid, r.head) + r.data + r.err }

  // ---- the master's operations --------------------------------------------------------------------------

  function Waiters(m: Master): set<Fd> { set fd | fd in m.slaves && m.slaves[fd].stage == WaitRdb }

  predicate AnyActive(slaves: map<Fd, Peer>) { exists fd | fd in slaves :: slaves[fd].stage != Synced }

  predicate Retains(m: Master, offset: nat) { m.base <= offset <= |m.log| }

  function RemoveSlave(m: Master, fd: Fd): Master {
    var left := m.slaves - {fd};
    m.(slaves := left, active := m.active && (AnyActive(left) || m.saveStarted))
  }

  /** Waiters are told the save failed and forgotten; their connections stay open. */
  function DropWaiters(m: Master): Master {
    m.(slaves := map fd | fd in m.slaves && m.slaves[fd].stage != WaitRdb :: m.slaves[fd],
       out := map fd | fd in m.out :: if fd in Waiters(m) then m.out[fd].(err := m.out[fd].err + SAVE_FAILED) else m.out[fd],
       active := false)
  }

  /** One start offset is shared by all who wait for the same fullsync. */
  function Align(m: Master): Master {
    var start := if m.active then m.activeStart else |m.log|;
    m.(active := true, activeStart := start,
       slaves := map fd | fd in m.slaves ::
                   if m.slaves[fd].stage == WaitRdb then m.slaves[fd].(start := start) else m.slaves[fd])
  }

  function StartFullsync(m: Master, fork: Fork): Master {
    if m.saveStarted || Waiters(m) == {} then m
    else
      var a := Align(m);
      if a.child.Saving? then a
      else
        match fork
        case Forked(image) => a.(child := Saving(true, image), saveStarted := true)
        case ForkFailed => DropWaiters(a)
  }

  predicate WantsFullsync(replid: Bytes, offset: int) { offset < 0 || replid == [] || replid == [63] }

  function OnPsync(m: Master, fd: Fd, replid: Bytes, offset: int, fork: Fork): Master {
    if fd !in m.conns then m
    else
      var a := RemoveSlave(m, fd);
      if !WantsFullsync(replid, offset) && replid == m.replid && Retains(m, offset) then
        a.(slaves := a.slaves[fd := Peer(Synced, offset)],
           out := a.out[fd := Reply(ContinueHead(offset), m.log[offset..], [])])
      else
        StartFullsync(a.(slaves := a.slaves[fd := Peer(WaitRdb, |m.log|)], out := a.out[fd := SILENT]), fork)
  }

  /** Replicas closed by a feed: slow readers, and those not yet synced whose start is no longer retained. */
  function Kicked(m: Master, base: nat, slow: set<Fd>): set<Fd> {
    set fd | fd in m.slaves && if m.slaves[fd].stage == Synced then fd in slow else m.slaves[fd].start < base
  }

  function AfterFrame(m: Master, base: nat, fd: Fd, frame: Bytes): Reply
    requires fd in m.out
  {
    var r := m.out[fd];
    if fd !in m.slaves then r
    else if m.slaves[fd].stage == Synced then r.(data := r.data + frame)
    else if m.slaves[fd].start < base then r.(err := r.err + OVERFLOW)
    else r
  }

  function FeedFrame(m: Master, frame: Bytes, slow: set<Fd>): Master
    requires m.base <= |m.log|
  {
    var base := BaseAfterFeed(m.base, |m.log|, m.cap, |frame|);
    var kicked := Kicked(m, base, slow);
    var left := m.slaves - kicked;
    m.(log := m.log + frame, base := base,
       slaves := left, conns := m.conns - kicked,
       out := map fd | fd in m.out :: AfterFrame(m, base, fd, frame),
       active := m.active && (kicked == {} || AnyActive(left) || m.saveStarted))
  }

  /** The SAVE command forks a save of the ordinary dump file. */
  function SaveCommand(m: Master, fork: Fork): Master {
    if m.child.Saving? || fork.ForkFailed? then m else m.(child := Saving(false, fork.image))
  }

  /** The finished snapshot goes to every waiter; one it cannot be sent to is dropped. */
  function SendToWaiters(m: Master, image: Bytes, fates: map<Fd, Fate>): Master {
    var lost := set fd | fd in Waiters(m) && fd in fates;
    var left := map fd | fd in m.slaves && fd !in lost ::
                  if m.slaves[fd].stage == WaitRdb then m.slaves[fd].(stage := SendingRdb) else m.slaves[fd];
    m.(slaves := left,
       out := map fd | fd in m.out ::
                if fd !in Waiters(m) then m.out[fd]
                else if fd !in lost then m.out[fd].(head := FullHead(m.slaves[fd].start, image, None))
                else Unsent(m.out[fd], m.slaves[fd].start, image, fates[fd]),
       active := m.active && (lost == {} || AnyActive(left)))
  }

  /** A file that vanished is noticed before the header is sent, one that cannot be opened after. */
  function Unsent(r: Reply, start: nat, image: Bytes, fate: Fate): Reply {
    if fate == Missing then r.(err := r.err + RDB_MISSING)
    else r.(head := BrokenHead(start, |image|), err := r.err + SENDFILE_FAILED)
  }

  function SaveDone(m: Master, ok: bool, fates: map<Fd, Fate>, fork: Fork): Master
    requires m.child.Saving?
  {
    var was := m.saveStarted && m.child.fullsync;
    var a := m.(child := Idle, saveStarted := false);
    if !was then StartFullsync(a, fork)
    else if !ok then DropWaiters(a)
    else SendToWaiters(a, m.child.image, fates)
  }

  /** The sendfile callback: the backlog follows the snapshot. */
  function SendFileDone(m: Master, fd: Fd, ok: bool): Master
    requires m.base <= |m.log|
  {
    if fd !in m.slaves || m.slaves[fd].stage != SendingRdb || fd !in m.out || !m.out[fd].head.FullHead? then m
    else if !ok then RemoveSlave(m, fd)
    else
      var p, r := m.slaves[fd], m.out[fd];
      if !Retains(m, p.start) then
        RemoveSlave(m.(out := m.out[fd := r.(err := r.err + BACKLOG_LOST)]), fd)
      else
        var payload := m.log[p.start..];
        var slaves := m.slaves[fd := p.(stage := Synced)];
        m.(slaves := slaves,
           out := m.out[fd := r.(head := r.head.(backlog := Some(|payload|)), data := r.data + payload)],
           active := m.active && AnyActive(slaves))
  }

  /** waitpid finds no child: it is forgotten, nobody is told, and the flags stay as they are. */
  function LoseChild(m: Master): Master { m.(child := Idle) }

  function Open(m: Master, fd: Fd): Master {
    if fd in m.out then m else m.(conns := m.conns + {fd}, out := m.out[fd := SILENT])
  }

  function Close(m: Master, fd: Fd): Master { RemoveSlave(m, fd).(conns := m.conns - {fd}) }

  // ---- no waiter is ever stranded --------------------------------------------------------------------------

  /** A waiter implies a running save, and a fullsync in progress that the save writes its path. */
  ghost predicate Served(m: Master) {
    && (Waiters(m) != {} ==> m.child.Saving?)
    && (m.saveStarted ==> m.child.Saving? && m.child.fullsync)
  }

  lemma StartServes(m: Master, fork: Fork)
    requires m.saveStarted ==> m.child.Saving? && m.child.fullsync
    ensures Served(StartFullsync(m, fork))
    ensures Waiters(m) != {} ==>
              (Waiters(StartFullsync(m, fork)) == Waiters(m)
               || (fork == ForkFailed && Waiters(StartFullsync(m, fork)) == {}))
  {
    if !m.saveStarted && Waiters(m) != {} {
      assert Waiters(Align(m)) == Waiters(m);
      assert Waiters(DropWaiters(Align(m))) == {};
    }
  }

  /** Every step keeps it, so each finished save serves, drops or forks again for every waiter. */
  lemma PsyncServes(m: Master, fd: Fd, replid: Bytes, offset: int, fork: Fork)
    requires Served(m)
    ensures Served(OnPsync(m, fd, replid, offset, fork))
  {
    if fd in m.conns {
      var a := RemoveSlave(m, fd);
      assert Waiters(a) <= Waiters(m);
      if !WantsFullsync(replid, offset) && replid == m.replid && Retains(m, offset) {
        assert Waiters(OnPsync(m, fd, replid, offset, fork)) <= Waiters(m);
      } else {
        StartServes(a.(slaves := a.slaves[fd := Peer(WaitRdb, |m.log|)], out := a.out[fd := SILENT]), fork);
      }
    }
  }

  lemma SaveDoneServes(m: Master, ok: bool, fates: map<Fd, Fate>, fork: Fork)
    requires m.child.Saving?
    ensures Served(SaveDone(m, ok, fates, fork))
    ensures m.saveStarted && m.child.fullsync ==> Waiters(SaveDone(m, ok, fates, fork)) == {}
  {
    var a := m.(child := Idle, saveStarted := false);
    if !(m.saveStarted && m.child.fullsync) {
      StartServes(a, fork);
    } else if !ok {
      assert Waiters(DropWaiters(a)) == {};
    } else {
      assert Waiters(SendToWaiters(a, m.child.image, fates)) == {};
    }
  }

  lemma OthersServe(m: Master, fd: Fd, frame: Bytes, slow: set<Fd>, ok: bool, fork: Fork)
    requires Served(m) && m.base <= |m.log|
    ensures Served(FeedFrame(m, frame, slow)) && Served(SendFileDone(m, fd, ok))
    ensures Served(SaveCommand(m, fork)) && Served(Open(m, fd)) && Served(Close(m, fd))
  {
    assert Waiters(FeedFrame(m, frame, slow)) <= Waiters(m);
    assert Waiters(SendFileDone(m, fd, ok)) <= Waiters(m);
    assert Waiters(SaveCommand(m, fork)) == Waiters(m);
    assert Waiters(Open(m, fd)) == Waiters(m);
    assert Waiters(Close(m, fd)) <= Waiters(m);
  }

  // ---- the stream has no gap -----------------------------------------------------------------------------------

  /** What was sent to a connection, registered or not, is a run of the log behind its head. */
  ghost predicate ReplyOk(r: Reply, log: Bytes) {
    match r.head
    case NoHead => r.data == [] && (r.err == [] || r.err[0] == MINUS)
    case ContinueHead(offset) => r.err == [] && RunAt(log, offset, r.data)
    case FullHead(offset, image, backlog) =>
      && (backlog.None? ==> r.data == [] && (r.err == [] || r.err[0] == MINUS))
      && (backlog.Some? ==> r.err == [] && backlog.value <= |r.data|)
      && RunAt(log, offset, r.data)
    case BrokenHead(offset, length) => r.data == [] && r.err == SENDFILE_FAILED && offset <= |log|
  }

  ghost predicate RunAt(log: Bytes, offset: nat, data: Bytes) {
    offset + |data| <= |log| && data == log[offset..offset + |data|]
  }

  /** What a registered replica has been sent: nothing, the snapshot, or the whole log from its
      start offset to the tip. */
  ghost predicate PeerOk(p: Peer, r: Reply, log: Bytes) {
    && p.start <= |log|
    && match p.stage
       case WaitRdb => r == SILENT
       case SendingRdb =>
         r.head.FullHead? && r.head.offset == p.start && r.head.backlog.None? && r.data == [] && r.err == []
       case Synced =>
         && (r.head == ContinueHead(p.start) || (r.head.FullHead? && r.head.offset == p.start && r.head.backlog.Some?))
         && r.err == [] && r.data == log[p.start..]
  }

  ghost predicate GapFree(m: Master) {
    && m.base <= |m.log|
    && (m.active ==> m.activeStart <= |m.log|)
    && (forall fd | fd in m.conns :: fd in m.out)
    && (forall fd | fd in m.out :: ReplyOk(m.out[fd], m.log))
    && (forall fd | fd in m.slaves :: fd in m.out && fd in m.conns && PeerOk(m.slaves[fd], m.out[fd], m.log))
  }

  lemma GrowRun(log: Bytes, frame: Bytes, offset: nat, data: Bytes)
    requires RunAt(log, offset, data)
    ensures RunAt(log + frame, offset, data)
    ensures offset + |data| == |log| ==> RunAt(log + frame, offset, data + frame)
  {}

  lemma GrowReply(r: Reply, log: Bytes, frame: Bytes)
    requires ReplyOk(r, log)
    ensures ReplyOk(r, log + frame)
  {
    hide RunAt;
    match r.head
    case ContinueHead(offset) => GrowRun(log, frame, offset, r.data);
    case FullHead(offset, _, _) => GrowRun(log, frame, offset, r.data);
    case _ =>
  }

  lemma GrowSynced(p: Peer, r: Reply, log: Bytes, frame: Bytes)
    requires PeerOk(p, r, log) && ReplyOk(r, log) && p.stage == Synced
    ensures PeerOk(p, r.(data := r.data + frame), log + frame) && ReplyOk(r.(data := r.data + frame), log + frame)
  {
    assert (log + frame)[p.start..] == log[p.start..] + frame;
    GrowRun(log, frame, p.start, r.data);
  }

  /** A fed frame reaches every synced replica that is kept, whatever is dropped from the ring. */
  lemma FeedGapFree(m: Master, frame: Bytes, slow: set<Fd>)
    requires GapFree(m)
    ensures GapFree(FeedFrame(m, frame, slow))
  {
    hide ReplyOk, PeerOk;
    var n := FeedFrame(m, frame, slow);
    forall fd | fd in m.out
      ensures ReplyOk(n.out[fd], n.log)
      ensures fd in n.slaves ==> PeerOk(n.slaves[fd], n.out[fd], n.log)
    {
      FeedOne(m, frame, slow, fd);
    }
  }

  lemma FeedOne(m: Master, frame: Bytes, slow: set<Fd>, fd: Fd)
    requires GapFree(m) && fd in m.out
    ensures var n := FeedFrame(m, frame, slow);
            ReplyOk(n.out[fd], n.log) && (fd in n.slaves ==> PeerOk(n.slaves[fd], n.out[fd], n.log))
  {
    GrowReply(m.out[fd], m.log, frame);
    if fd in m.slaves && m.slaves[fd].stage == Synced {
      GrowSynced(m.slaves[fd], m.out[fd], m.log, frame);
    }
  }

  lemma StartGapFree(m: Master, fork: Fork)
    requires GapFree(m)
    ensures GapFree(StartFullsync(m, fork))
  {
    hide GapFree, Align, DropWaiters;
    AlignGapFree(m);
    DropGapFree(Align(m));
    match fork
    case Forked(image) => ForkGapFree(Align(m), image);
    case ForkFailed =>
  }

  /** Sharing the start changes nothing that has been sent. */
  lemma AlignGapFree(m: Master)
    requires GapFree(m)
    ensures GapFree(Align(m))
  {
    hide ReplyOk;
  }

  lemma DropGapFree(m: Master)
    requires GapFree(m)
    ensures GapFree(DropWaiters(m))
  {
    hide RunAt;
  }

  lemma ForkGapFree(m: Master, image: Bytes)
    requires GapFree(m)
    ensures GapFree(m.(child := Saving(true, image), saveStarted := true))
  {
    hide ReplyOk, PeerOk;
  }

  lemma RegisterGapFree(m: Master, fd: Fd, p: Peer, r: Reply)
    requires GapFree(m) && fd in m.conns && PeerOk(p, r, m.log) && ReplyOk(r, m.log)
    ensures GapFree(m.(slaves := m.slaves[fd := p], out := m.out[fd := r]))
  {
    hide PeerOk, ReplyOk;
  }

  lemma PsyncGapFree(m: Master, fd: Fd, replid: Bytes, offset: int, fork: Fork)
    requires GapFree(m)
    ensures GapFree(OnPsync(m, fd, replid, offset, fork))
  {
    hide StartFullsync, PeerOk, ReplyOk;
    if fd in m.conns {
      var a := RemoveSlave(m, fd);
      assert GapFree(a);
      if !WantsFullsync(replid, offset) && replid == m.replid && Retains(m, offset) {
        ContinueOk(m.log, offset);
        RegisterGapFree(a, fd, Peer(Synced, offset), Reply(ContinueHead(offset), m.log[offset..], []));
      } else {
        WaiterOk(m.log);
        RegisterGapFree(a, fd, Peer(WaitRdb, |m.log|), SILENT);
        StartGapFree(a.(slaves := a.slaves[fd := Peer(WaitRdb, |m.log|)], out := a.out[fd := SILENT]), fork);
      }
    }
  }

  lemma ContinueOk(log: Bytes, offset: nat)
    requires offset <= |log|
    ensures var r := Reply(ContinueHead(offset), log[offset..], []);
            PeerOk(Peer(Synced, offset), r, log) && ReplyOk(r, log)
  {
    assert log[offset..] == log[offset..offset + |log[offset..]|];
  }

  lemma WaiterOk(log: Bytes)
    ensures PeerOk(Peer(WaitRdb, |log|), SILENT, log) && ReplyOk(SILENT, log)
  {}

  lemma SaveDoneGapFree(m: Master, ok: bool, fates: map<Fd, Fate>, fork: Fork)
    requires GapFree(m) && m.child.Saving?
    ensures GapFree(SaveDone(m, ok, fates, fork))
  {
    var a := m.(child := Idle, saveStarted := false);
    if m.saveStarted && m.child.fullsync && ok {
      SendGapFree(a, m.child.image, fates);
    } else if !(m.saveStarted && m.child.fullsync) {
      StartGapFree(a, fork);
    }
  }

  lemma SendGapFree(m: Master, image: Bytes, fates: map<Fd, Fate>)
    requires GapFree(m)
    ensures GapFree(SendToWaiters(m, image, fates))
  {
    hide PeerOk, ReplyOk;
    var n := SendToWaiters(m, image, fates);
    forall fd | fd in m.out
      ensures ReplyOk(n.out[fd], n.log)
      ensures fd in n.slaves ==> PeerOk(n.slaves[fd], n.out[fd], n.log)
    {
      SendOne(m, image, fates, fd);
    }
  }

  lemma SendOne(m: Master, image: Bytes, fates: map<Fd, Fate>, fd: Fd)
    requires GapFree(m) && fd in m.out
    ensures var n := SendToWaiters(m, image, fates);
            ReplyOk(n.out[fd], n.log) && (fd in n.slaves ==> PeerOk(n.slaves[fd], n.out[fd], n.log))
  {
    assert [] + SENDFILE_FAILED == SENDFILE_FAILED && [] + RDB_MISSING == RDB_MISSING;
  }

  /** The backlog sent behind the snapshot starts at the replica's start and ends at the tip. */
  lemma SendFileDoneGapFree(m: Master, fd: Fd, ok: bool)
    requires GapFree(m)
    ensures GapFree(SendFileDone(m, fd, ok))
  {
    hide ReplyOk, PeerOk, AnyActive;
    var sent := fd in m.slaves && m.slaves[fd].stage == SendingRdb && fd in m.out && m.out[fd].head.FullHead?;
    if sent {
      FileSentOk(m.slaves[fd], m.out[fd], m.log);
    }
    assert SendFileDone(m, fd, ok).out.Keys == m.out.Keys;
  }

  /** The peer and its reply once the file is sent: the backlog follows, or the refusal. */
  lemma FileSentOk(p: Peer, r: Reply, log: Bytes)
    requires PeerOk(p, r, log) && ReplyOk(r, log) && p.stage == SendingRdb
    ensures ReplyOk(r.(err := r.err + BACKLOG_LOST), log)
    ensures p.start <= |log|
    ensures var payload := log[p.start..];
            var q := r.(head := r.head.(backlog := Some(|payload|)), data := r.data + payload);
            ReplyOk(q, log) && PeerOk(p.(stage := Synced), q, log)
  {
    var payload := log[p.start..];
    assert [] + payload == payload;
    assert payload == log[p.start..p.start + |payload|];
    assert [] + BACKLOG_LOST == BACKLOG_LOST;
  }

  lemma OthersGapFree(m: Master, fd: Fd, fork: Fork)
    requires GapFree(m)
    ensures GapFree(SaveCommand(m, fork)) && GapFree(Open(m, fd)) && GapFree(Close(m, fd))
  {}
}
