/** A replica that comes from another master, or from this one before it restarted with a new id. */
module ReplicationNewcomers {
  import opened ByteStrings
  import opened Databases
  import opened VNodeIndexes
  import opened Views
  import opened Commands
  import opened Frames
  import opened Snapshots
  import opened ReplicationSlaves
  import opened ReplicationMasters
  import opened Replication
  import opened ReplicationParser
  import opened ReplicationInvariants
  import opened ReplicationTheorems
  import opened ReplicationConvergence

  // ---- the master's answer to one request ---------------------------------------------------------------------

  /** The first thing on the wire after a request is "+CONTINUE" exactly if the request named the master's own id,
      which is neither empty nor "?", and an offset that is still retained; exactly then the connection is in sync at once, and what
      follows is the log from that offset on. */
  lemma Answer(m: Master, fd: Fd, replid: Bytes, offset: int, fork: Fork)
    requires fd in m.conns
    ensures var n := OnPsync(m, fd, replid, offset, fork);
            && fd in n.out
            && (PLUS_CONTINUE <= ReplyBytes(m.replid, n.out[fd]) <==> replid == m.replid && replid !in {[], [63]} && m.base <= offset <= |m.log|)
            && (PLUS_CONTINUE <= ReplyBytes(m.replid, n.out[fd]) <==> fd in n.slaves && n.slaves[fd].stage == Synced)
            && (PLUS_CONTINUE <= ReplyBytes(m.replid, n.out[fd])
                ==> ReplyBytes(m.replid, n.out[fd]) == PLUS_CONTINUE + m.log[offset..])
  {
    var n := OnPsync(m, fd, replid, offset, fork);
    if Continues(m, fd, replid, offset) {
      assert ReplyBytes(m.replid, n.out[fd]) == PLUS_CONTINUE + m.log[offset..];
    } else {
      var a := RemoveSlave(m, fd);
      StartAnswers(a.(slaves := a.slaves[fd := Peer(WaitRdb, |m.log|)], out := a.out[fd := SILENT]), fd, fork);
    }
  }

  /** A waiter has been sent nothing, or is told that the save failed and forgotten. */
  lemma StartAnswers(m: Master, fd: Fd, fork: Fork)
    requires fd in m.slaves && m.slaves[fd].stage == WaitRdb && fd in m.out && m.out[fd] == SILENT
    ensures var n := StartFullsync(m, fork);
            && fd in n.out && !(PLUS_CONTINUE <= ReplyBytes(m.replid, n.out[fd]))
            && (fd in n.slaves ==> n.slaves[fd].stage == WaitRdb)
  {
    var n := StartFullsync(m, fork);
    assert n.out[fd] == SILENT || n.out[fd] == SILENT.(err := SAVE_FAILED);
    assert [] + [] + SAVE_FAILED == SAVE_FAILED;
    assert SAVE_FAILED[0] == MINUS && PLUS_CONTINUE[0] == PLUS;
    assert ReplyBytes(m.replid, n.out[fd]) == [] || ReplyBytes(m.replid, n.out[fd]) == SAVE_FAILED;
  }

  // ---- over every run ---------------------------------------------------------------------------------------------

  /** Not in sync with this master in any way: it holds what it came with. */
  ghost predicate Foreign(s: Sys, id: Bytes, position: nat, data: Db) {
    && s.sl.replid == id && s.sl.haveOffset && s.sl.offset == position && s.sl.db == data
    && s.sl.state in {Init, WaitFullresync, Error}
  }

  lemma ForeignWaits(s: Sys, hint: Walk, id: Bytes, position: nat, data: Db)
    requires Inv(s) && s.link.Some? && Foreign(s, id, position, data) && id != s.m.replid
    requires s.sl.state == WaitFullresync ==> Iterate(s.sl, hint).slave.state != RecvRdbHeader
    ensures Foreign(RoundStep(s, hint), id, position, data)
  {
    hide GapFree, LogInv, MasterInv, LinkInv, SlaveInv, RoundStep, WaitRound, Pos, ReplyOk, HeadOk;
    ReadOk(s);
    PlainRound(s, hint);
    var sl := Iterate(s.sl, hint).slave;
    if s.sl.state == WaitFullresync {
      WaitKeeps(s.sl, Read(s), s.m.replid, Rest(s), s.m.log);
      OffsetKnown(sl, Read(s), s.m.replid, Rest(s));
    }
  }

  lemma ForeignStep(s: Sys, e: Event, id: Bytes, position: nat, data: Db)
    requires Inv(s) && Enabled(s, e) && Foreign(s, id, position, data) && id != s.m.replid && !Announces(s, e)
    ensures s.m.base <= |s.m.log| && Foreign(Step(s, e), id, position, data)
  {
    hide Inv, OrdersOf, StartFullsync, Image, Apply, FeedFrame, Iterate, ViewOf, Coherent, Started, SendToWaiters, OnPsync, RoundStep;
    GapBase(s.m) by { InvGap(s); }
    match e
    case Psync(fd, replid, offset, fork) => PsyncEpoch(s, fd, replid, offset, fork);
    case SaveEnds(_, _, fork) => StartedEpoch(s.(m := s.m.(child := Idle, saveStarted := false)), fork);
    case SlaveAsks(fork) => AskEpoch(s, fork);
    case SlaveRound(hint) => ForeignWaits(s, hint, id, position, data);
    case _ =>
  }

  lemma PsyncReplid(s: Sys, fd: Fd, replid: Bytes, offset: int, fork: Option<Orders>)
    requires ForkFits(s, fork)
    ensures PsyncStep(s, fd, replid, offset, fork).m.replid == s.m.replid
  {
    hide ForkOf, OnPsync, OrdersOf;
    PsyncIsOnPsync(s, fd, replid, offset, fork);
    AnswerReplid(s.m, fd, replid, offset, ForkOf(s, fork));
  }

  lemma AnswerReplid(m: Master, fd: Fd, replid: Bytes, offset: int, fork: Fork)
    ensures OnPsync(m, fd, replid, offset, fork).replid == m.replid
  {
    hide StartFullsync, AnyActive;
    var a := RemoveSlave(m, fd);
    StartReplid(a.(slaves := a.slaves[fd := Peer(WaitRdb, |m.log|)], out := a.out[fd := SILENT]), fork);
  }

  lemma StartReplid(m: Master, fork: Fork)
    ensures StartFullsync(m, fork).replid == m.replid
  {}

  lemma StartedReplid(s: Sys, fork: Option<Orders>)
    requires ForkFits(s, fork)
    ensures Started(s, fork).m.replid == s.m.replid
  {
    hide StartFullsync, ForkOf, OrdersOf;
    StartReplid(s.m, ForkOf(s, fork));
  }

  lemma EndReplid(s: Sys, ok: bool, fates: map<Fd, Fate>, fork: Option<Orders>)
    requires ForkFits(s, fork) && s.m.child.Saving?
    ensures SaveEndsStep(s, ok, fates, fork).m.replid == s.m.replid
  {
    hide Started, StartFullsync, ForkOf, OrdersOf, Waiters;
    StartedReplid(s.(m := s.m.(child := Idle, saveStarted := false)), fork);
  }

  lemma ReplidStays(s: Sys, e: Event)
    requires s.m.base <= |s.m.log| && Enabled(s, e)
    ensures Step(s, e).m.replid == s.m.replid
  {
    hide OrdersOf, ForkOf, PsyncStep, SaveEndsStep, RoundStep, Receive, Apply, ViewOf, Coherent, AnyActive, Kicked, AfterFrame, Open, Close;
    match e
    case Psync(fd, replid, offset, fork) => PsyncReplid(s, fd, replid, offset, fork);
    case SlaveAsks(fork) =>
      var known := s.sl.haveOffset && s.sl.replid != [];
      PsyncReplid(s.(link := Some(s.link.value.(asked := true))), s.link.value.fd, if known then s.sl.replid else [63],
                  if known then s.sl.offset else -1, fork);
    case SaveEnds(ok, fates, fork) => EndReplid(s, ok, fates, fork);
    case SlaveRound(hint) => RoundReplid(s, hint);
    case Connect(fd) => LinksReplid(s.m, fd);
    case Disconnect(fd) => LinksReplid(s.m, fd);
    case SlaveConnects(fd) => LinksReplid(s.m, fd);
    case _ =>
  }

  lemma LinksReplid(m: Master, fd: Fd)
    ensures Open(m, fd).replid == m.replid && Close(m, fd).replid == m.replid
  {}

  lemma RoundReplid(s: Sys, hint: Walk)
    requires s.link.Some?
    ensures RoundStep(s, hint).m == s.m
  {
    hide Iterate, Sound, WholeFrames;
  }

  /** Over every run: a replica that comes from another master is never taken for one of this master's. Whatever
      it asks for, however often it connects, and whatever offset it names, its data and its offset
      stay what they were until a full resync is announced to it. */
  lemma {:induction false} NeverContinues(ss: seq<Sys>, es: seq<Event>, i: nat, j: nat)
    requires IsRun(ss, es) && i < j < |ss| && es[i].SlaveComes?
    requires forall q | i < q < j :: !Announces(ss[q], es[q])
    ensures ss[j].m.replid == ss[i].m.replid != es[i].id
    ensures Foreign(ss[j], es[i].id, es[i].position, es[i].data)
    decreases j
  {
    hide Initial, Enabled, Step, Announces, Inv, Foreign;
    RunKeeps(ss, es, j - 1);
    assert Follows(ss[j - 1], es[j - 1], ss[j]);
    ReplidStays(ss[j - 1], es[j - 1]);
    if i < j - 1 {
      NeverContinues(ss, es, i, j - 1);
      ForeignStep(ss[j - 1], es[j - 1], es[i].id, es[i].position, es[i].data);
    } else {
      Arrived(ss[i], es[i].id, es[i].position, es[i].data);
    }
  }

  lemma Arrived(s: Sys, id: Bytes, position: nat, data: Db)
    requires Inv(s) && Enabled(s, SlaveComes(id, position, data)) && s.m.base <= |s.m.log|
    ensures Foreign(Step(s, SlaveComes(id, position, data)), id, position, data) && id != s.m.replid
  {
    hide GapFree, LogInv, MasterInv, SlaveInv;
  }
}
