/** ReplicationMaster as an object: its fields, its loops over replicas, and the bytes it sends. */
module MasterObjects {
  import opened ByteStrings
  import opened ReplicationBacklogs
  import opened ReplicationMasters

  // ---- what one more send makes of a reply ----------------------------------------------------------------

  lemma DataSent(replid: Bytes, r: Reply, bytes: Bytes)
    requires r.err == []
    ensures ReplyBytes(replid, r.(data := r.data + bytes)) == ReplyBytes(replid, r) + bytes
  {
    hide HeadBytes;
    assert HeadBytes(replid, r.head) + (r.data + bytes) + [] == HeadBytes(replid, r.head) + r.data + [] + bytes;
  }

  lemma ErrSent(replid: Bytes, r: Reply, bytes: Bytes)
    ensures ReplyBytes(replid, r.(err := r.err + bytes)) == ReplyBytes(replid, r) + bytes
  {
    hide HeadBytes;
    assert HeadBytes(replid, r.head) + r.data + (r.err + bytes) == HeadBytes(replid, r.head) + r.data + r.err + bytes;
  }

  lemma SilentBytes(replid: Bytes)
    ensures ReplyBytes(replid, SILENT) == []
  {}

  lemma ContinueSent(replid: Bytes, offset: nat, data: Bytes)
    ensures ReplyBytes(replid, Reply(ContinueHead(offset), data, [])) == PLUS_CONTINUE + data
  {}

  lemma FullSent(replid: Bytes, start: nat, image: Bytes)
    ensures ReplyBytes(replid, Reply(FullHead(start, image, None), [], []))
         == FullLine(replid, start) + LengthLine(|image|) + image
    ensures ReplyBytes(replid, Reply(BrokenHead(start, |image|), [], SENDFILE_FAILED))
         == FullLine(replid, start) + LengthLine(|image|) + SENDFILE_FAILED
  {
    hide FullLine, LengthLine;
  }

  lemma BacklogSent(replid: Bytes, start: nat, image: Bytes, payload: Bytes)
    ensures ReplyBytes(replid, Reply(FullHead(start, image, Some(|payload|)), payload, []))
         == ReplyBytes(replid, Reply(FullHead(start, image, None), [], [])) + LengthLine(|payload|) + payload
  {
    hide FullLine, LengthLine;
  }

  // ---- the object --------------------------------------------------------------------------------------------

  class ReplicationMaster {
    const replid: Bytes
    const backlog: ReplicationBacklog
    var conns: set<Fd>
    var slaves: map<Fd, Peer>
    var active: bool
    var activeStart: nat
    var saveStarted: bool
    var child: Child                   // what the snapshot manager's save child is doing
    var wire: map<Fd, Bytes>           // bytes handed to each connection since its last PSYNC
    ghost var replies: map<Fd, Reply>  // ... and what they mean

    ghost function Model(): Master
      reads this, backlog
    {
      Master(replid, backlog.buf.Length, backlog.log, backlog.base, conns, slaves, replies,
             active, activeStart, saveStarted, child)
    }

    ghost predicate Wired()
      reads this`wire, this`replies
    {
      wire.Keys == replies.Keys && forall fd | fd in wire :: wire[fd] == ReplyBytes(replid, replies[fd])
    }

    ghost predicate Valid()
      reads this, backlog, backlog.buf
    {
      backlog.Valid() && Wired() && GapFree(Model())
    }

    constructor (replid: Bytes, capacity: nat)
      ensures Valid() && fresh(backlog) && fresh(backlog.buf) && this.replid == replid
      ensures Model() == Master(replid, backlog.buf.Length, [], 0, {}, map[], map[], false, 0, false, Idle)
    {
      this.replid := replid;
      backlog := new ReplicationBacklog(capacity);
      conns, slaves, wire, replies := {}, map[], map[], map[];
      active, activeStart, saveStarted, child := false, 0, false, Idle;
    }

    /** Hands bytes to a connection; r is the reply they complete. */
    method Send(fd: Fd, bytes: Bytes, ghost r: Reply)
      requires fd in wire && fd in replies && Wired()
      requires ReplyBytes(replid, r) == ReplyBytes(replid, replies[fd]) + bytes
      modifies this`wire, this`replies
      ensures Wired() && wire == old(wire)[fd := old(wire)[fd] + bytes] && replies == old(replies)[fd := r]
    {
      wire := wire[fd := wire[fd] + bytes];
      replies := replies[fd := r];
    }

    method HasUnsynced() returns (any: bool)
      ensures any == AnyActive(slaves)
    {
      var todo := slaves.Keys;
      while todo != {}
        invariant todo <= slaves.Keys
        invariant forall fd | fd in slaves && fd !in todo :: slaves[fd].stage == Synced
        decreases todo
      {
        var fd :| fd in todo;
        if slaves[fd].stage != Synced {
          return true;
        }
        todo := todo - {fd};
      }
      return false;
    }

    method RemoveSlave(fd: Fd)
      modifies this`slaves, this`active
      ensures Model() == ReplicationMasters.RemoveSlave(old(Model()), fd)
    {
      slaves := slaves - {fd};
      var any := HasUnsynced();
      if !any && !saveStarted {
        active := false;
      }
    }

    method OnConnection(fd: Fd)
      requires Valid() && fd !in wire
      modifies this`conns, this`wire, this`replies
      ensures Valid() && Model() == Open(old(Model()), fd)
    {
      OthersGapFree(Model(), fd, ForkFailed);
      SilentBytes(replid);
      conns := conns + {fd};
      wire := wire[fd := []];
      replies := replies[fd := SILENT];
    }

    /** The close callback of a connection. */
    method OnClosed(fd: Fd)
      modifies this`slaves, this`active, this`conns
      ensures Model() == Close(old(Model()), fd)
      ensures old(Valid()) ==> Valid()
    {
      if GapFree(Model()) {
        OthersGapFree(Model(), fd, ForkFailed);
      }
      RemoveSlave(fd);
      conns := conns - {fd};
    }

    /** Every synced replica is sent the frame; slow readers, and those whose start is no longer
        retained, are then closed. */
    method FeedEncodedFrame(frame: Bytes, slow: set<Fd>)
      requires Valid()
      modifies this`slaves, this`active, this`conns, this`wire, this`replies, backlog, backlog.buf
      ensures Valid() && Model() == FeedFrame(old(Model()), frame, slow)
    {
      hide GapFree, ReplyBytes, ReplicationMasters.RemoveSlave;
      ghost var m := Model();
      FeedGapFree(m, frame, slow);
      BacklogBase(m);
      var fed := backlog.FeedEncoded(frame);
      var drop := PushFrame(frame, slow, m);
      KickAll(frame, drop, m);
      FeedIs(m, frame, slow, Model());
    }

    /** The first loop: the frame goes to every synced replica. */
    method PushFrame(frame: Bytes, slow: set<Fd>, ghost m: Master) returns (drop: set<Fd>)
      requires backlog.Valid() && Wired() && GapFree(m) && m.slaves == slaves && m.out == replies && |m.log| <= |backlog.log|
      modifies this`wire, this`replies
      ensures Wired() && drop == Kicked(m, backlog.base, slow) && replies == Pushed(m, frame, {})
    {
      hide GapFree, ReplyBytes;
      var todo := slaves.Keys;
      drop := {};
      assert replies == Pushed(m, frame, todo);
      while todo != {}
        invariant todo <= slaves.Keys && Wired()
        invariant drop == Kicked(m, backlog.base, slow) - todo
        invariant replies == Pushed(m, frame, todo)
        decreases todo
      {
        var fd :| fd in todo;
        SlaveWired(m, fd);
        todo := todo - {fd};
        if slaves[fd].stage == Synced {
          DataSent(replid, replies[fd], frame);
          Send(fd, frame, replies[fd].(data := replies[fd].data + frame));
          if fd in slow {
            drop := drop + {fd};
          }
        } else {
          var retained := backlog.Contains(slaves[fd].start);
          if !retained {
            drop := drop + {fd};
          }
        }
      }
    }

    /** The second loop: each dropped replica is told, unless it was synced, and closed. */
    method KickAll(frame: Bytes, kicked: set<Fd>, ghost m: Master)
      requires Wired() && GapFree(m) && m.slaves == slaves && replies == Pushed(m, frame, {}) && kicked <= slaves.Keys
      modifies this`slaves, this`active, this`conns, this`wire, this`replies
      ensures Wired() && slaves == m.slaves - kicked && conns == old(conns) - kicked
      ensures replies == KickedReplies(m, frame, kicked)
      ensures active == (old(active) && (kicked == {} || AnyActive(slaves) || saveStarted))
    {
      hide GapFree, ReplyBytes, AnyActive, KickedReplies, Pushed;
      var drop := kicked;
      NoneKicked(m, frame);
      assert kicked - drop == {};
      while drop != {}
        invariant drop <= kicked && Wired()
        invariant slaves == m.slaves - (kicked - drop) && conns == old(conns) - (kicked - drop)
        invariant replies == KickedReplies(m, frame, kicked - drop)
        invariant active == (old(active) && (drop == kicked || AnyActive(slaves) || saveStarted))
        decreases drop
      {
        var fd :| fd in drop;
        KickOne(frame, fd, m, kicked - drop);
        assert kicked - (drop - {fd}) == (kicked - drop) + {fd};
        drop := drop - {fd};
      }
      assert kicked - {} == kicked;
    }

    method KickOne(frame: Bytes, fd: Fd, ghost m: Master, ghost gone: set<Fd>)
      requires Wired() && GapFree(m) && slaves == m.slaves - gone && fd in slaves && replies == KickedReplies(m, frame, gone)
      modifies this`slaves, this`active, this`conns, this`wire, this`replies
      ensures Wired() && slaves == m.slaves - (gone + {fd}) && conns == old(conns) - {fd}
      ensures replies == KickedReplies(m, frame, gone + {fd})
      ensures active == (old(active) && (AnyActive(slaves) || saveStarted)) && (AnyActive(slaves) ==> AnyActive(old(slaves)))
    {
      hide GapFree, ReplyBytes, AnyActive, KickedReplies;
      SlaveWired(m, fd);
      KickedNext(m, frame, gone, fd);
      if slaves[fd].stage != Synced {
        ErrSent(replid, replies[fd], OVERFLOW);
        Send(fd, OVERFLOW, replies[fd].(err := replies[fd].err + OVERFLOW));
      }
      FewerActive(slaves, fd);
      OnClosed(fd);
    }

    // ---- the fullsync cycle ------------------------------------------------------------------------------

    method HasWaiter() returns (any: bool)
      ensures any == (Waiters(Model()) != {})
    {
      var todo := slaves.Keys;
      while todo != {}
        invariant todo <= slaves.Keys
        invariant forall fd | fd in slaves && fd !in todo :: slaves[fd].stage != WaitRdb
        decreases todo
      {
        var fd :| fd in todo;
        if slaves[fd].stage == WaitRdb {
          assert fd in Waiters(Model());
          return true;
        }
        todo := todo - {fd};
      }
      return false;
    }

    method StartFullsyncIfNeeded(fork: Fork)
      requires Valid()
      modifies this`slaves, this`active, this`activeStart, this`saveStarted, this`child, this`wire, this`replies
      ensures Valid() && Model() == StartFullsync(old(Model()), fork)
    {
      hide GapFree, ReplyBytes, DropWaiters, ReplicationMasters.Align;
      ghost var m := Model();
      StartGapFree(m, fork);
      if saveStarted {
        return;
      }
      var need := HasWaiter();
      if !need {
        return;
      }
      AlignWaiters();
      if child.Saving? {
        return;
      }
      match fork {
        case Forked(image) =>
          child := Saving(true, image);
          saveStarted := true;
        case ForkFailed =>
          AlignGapFree(m);
          FailWaiters();
      }
    }

    /** All who wait share the start of the fullsync in progress. */
    method AlignWaiters()
      requires backlog.Valid()
      modifies this`slaves, this`active, this`activeStart
      ensures Model() == ReplicationMasters.Align(old(Model()))
    {
      hide ReplicationMasters.Align, Aligned;
      ghost var m := Model();
      AlignedAll(m);
      if !active {
        activeStart := backlog.tip;
        active := true;
      }
      var todo := slaves.Keys;
      NoneAligned(slaves, activeStart);
      ghost var start := activeStart;
      while todo != {}
        invariant active && activeStart == start
        invariant todo <= m.slaves.Keys && slaves == Aligned(m.slaves, activeStart, todo)
        decreases todo
      {
        var fd :| fd in todo;
        AlignedNext(m.slaves, activeStart, todo, fd);
        if slaves[fd].stage == WaitRdb {
          slaves := slaves[fd := slaves[fd].(start := activeStart)];
        }
        todo := todo - {fd};
      }
    }

    /** Waiters are told the save failed and forgotten. */
    method FailWaiters()
      requires Wired() && GapFree(Model())
      modifies this`slaves, this`active, this`wire, this`replies
      ensures Wired() && Model() == DropWaiters(old(Model()))
    {
      hide GapFree, ReplyBytes, Told, Waiters, DropWaiters, Wired;
      ghost var m := Model();
      NoneTold(m);
      var drop := WaiterFds();
      var todo := drop;
      while todo != {}
        invariant todo <= Waiters(m) && Wired() && slaves == m.slaves && replies == Told(m, todo)
        decreases todo
      {
        var fd :| fd in todo;
        TellFailed(fd, m, todo);
        todo := todo - {fd};
      }
      slaves := slaves - drop;
      active := false;
      AllTold(m);
    }

    method TellFailed(fd: Fd, ghost m: Master, ghost todo: set<Fd>)
      requires Wired() && GapFree(m) && fd in todo && fd in Waiters(m) && replies == Told(m, todo)
      modifies this`wire, this`replies
      ensures Wired() && replies == Told(m, todo - {fd})
    {
      hide GapFree, ReplyBytes;
      SlaveWired(m, fd);
      ErrSent(replid, replies[fd], SAVE_FAILED);
      Send(fd, SAVE_FAILED, replies[fd].(err := replies[fd].err + SAVE_FAILED));
    }

    // ---- PSYNC ---------------------------------------------------------------------------------------------

    /** A new answer begins on the connection. */
    method BeginReply(fd: Fd)
      requires Wired()
      modifies this`wire, this`replies
      ensures Wired() && replies == old(replies)[fd := SILENT] && wire == old(wire)[fd := []]
    {
      SilentBytes(replid);
      wire := wire[fd := []];
      replies := replies[fd := SILENT];
    }

    method TryPartialResync(fd: Fd, offset: nat) returns (ok: bool)
      requires backlog.Valid() && Wired() && backlog.base <= |backlog.log|
      modifies this`slaves, this`wire, this`replies
      ensures Wired() && ok == Retains(old(Model()), offset)
      ensures !ok ==> Model() == old(Model())
      ensures ok ==> Model() == old(Model()).(
                  slaves := old(slaves)[fd := Peer(Synced, offset)],
                  out := old(replies)[fd := Reply(ContinueHead(offset), backlog.log[offset..], [])])
    {
      hide ReplyBytes, Wired;
      var retained := backlog.Contains(offset);
      if !retained {
        return false;
      }
      var copied, payload := backlog.CopyRange(offset, backlog.tip);
      assert payload == backlog.log[offset..];
      slaves := slaves[fd := Peer(Synced, offset)];
      SendContinue(fd, offset, payload);
      return true;
    }

    /** Catch-up is raw frames: the replica streams at once. */
    method SendContinue(fd: Fd, offset: nat, payload: Bytes)
      requires Wired()
      modifies this`wire, this`replies
      ensures Wired() && replies == old(replies)[fd := Reply(ContinueHead(offset), payload, [])]
    {
      hide ReplyBytes;
      BeginReply(fd);
      ContinueSent(replid, offset, []);
      SilentBytes(replid);
      Send(fd, PLUS_CONTINUE, Reply(ContinueHead(offset), [], []));
      assert [] + payload == payload;
      if payload != [] {
        DataSent(replid, replies[fd], payload);
        Send(fd, payload, replies[fd].(data := replies[fd].data + payload));
      }
    }

    method OnPsync(fd: Fd, wanted: Bytes, offset: int, fork: Fork)
      requires Valid()
      modifies this`slaves, this`active, this`activeStart, this`saveStarted, this`child, this`wire, this`replies
      ensures Valid() && Model() == ReplicationMasters.OnPsync(old(Model()), fd, wanted, offset, fork)
    {
      hide GapFree, ReplyBytes, StartFullsync, Wired, ReplicationMasters.RemoveSlave;
      ghost var m := Model();
      PsyncGapFree(m, fd, wanted, offset, fork);
      BacklogBase(m);
      if fd !in conns {
        return;
      }
      RemoveSlave(fd);
      RemovedRest(m, fd);
      if !WantsFullsync(wanted, offset) && wanted == replid && offset >= 0 {
        var ok := TryPartialResync(fd, offset);
        if ok {
          return;
        }
      }
      slaves := slaves[fd := Peer(WaitRdb, backlog.tip)];
      BeginReply(fd);
      WaitingGapFree(m, fd);
      StartFullsyncIfNeeded(fork);
    }

    // ---- the save is over -------------------------------------------------------------------------------------

    /** The save child's end: the snapshot manager forgets it and reports its path. */
    method OnSaveDone(ok: bool, fates: map<Fd, Fate>, fork: Fork)
      requires Valid() && child.Saving?
      modifies this`slaves, this`active, this`activeStart, this`saveStarted, this`child, this`wire, this`replies
      ensures Valid() && Model() == SaveDone(old(Model()), ok, fates, fork)
    {
      hide GapFree, ReplyBytes, StartFullsync, DropWaiters, SendToWaiters;
      ghost var m := Model();
      SaveDoneGapFree(m, ok, fates, fork);
      IdleGapFree(m);
      var was := saveStarted && child.fullsync;
      var image := child.image;
      child := Idle;
      saveStarted := false;
      if was {
        if !ok {
          FailWaiters();
          return;
        }
        BeginSendToWaiters(image, fates);
        return;
      }
      StartFullsyncIfNeeded(fork);
    }

    /** The snapshot manager has lost its child and reports nothing: no flag of the master changes. */
    method OnChildLost()
      requires Valid()
      modifies this`child
      ensures Valid() && Model() == LoseChild(old(Model()))
    {
      LostGapFree(Model());
      child := Idle;
    }

    method BeginSendToWaiters(image: Bytes, fates: map<Fd, Fate>)
      requires Wired() && GapFree(Model()) && !saveStarted
      modifies this`slaves, this`active, this`wire, this`replies
      ensures Wired() && Model() == SendToWaiters(old(Model()), image, fates)
    {
      hide GapFree, ReplyBytes, Wired;
      ghost var m := Model();
      var todo := WaiterFds();
      var lost: set<Fd> := {};
      NoneServed(m, image, fates);
      while todo != {}
        invariant todo <= Waiters(m) && Wired() && !saveStarted
        invariant Model() == ServedTo(m, image, fates, Waiters(m) - todo).(active := active)
        invariant active == (m.active && (LostIn(m, fates, Waiters(m) - todo) == {} || AnyActive(slaves)))
        decreases todo
      {
        var fd :| fd in todo;
        SendRdbToSlave(fd, image, fates, m, Waiters(m) - todo);
        assert Waiters(m) - (todo - {fd}) == (Waiters(m) - todo) + {fd};
        todo := todo - {fd};
      }
      assert Waiters(m) - {} == Waiters(m);
      AllServed(m, image, fates);
    }

    method WaiterFds() returns (fds: set<Fd>)
      ensures fds == Waiters(Model())
    {
      fds := {};
      var todo := slaves.Keys;
      while todo != {}
        invariant todo <= slaves.Keys && fds == Waiters(Model()) - todo
        decreases todo
      {
        var fd :| fd in todo;
        if slaves[fd].stage == WaitRdb {
          fds := fds + {fd};
        }
        todo := todo - {fd};
      }
    }

    /** The header announces the file, the file follows, and its callback sends the backlog. */
    method SendRdbToSlave(fd: Fd, image: Bytes, fates: map<Fd, Fate>, ghost m: Master, ghost done: set<Fd>)
      requires Wired() && GapFree(m) && !saveStarted && !m.saveStarted && fd in Waiters(m) && fd !in done && done <= Waiters(m)
      requires Model() == ServedTo(m, image, fates, done).(active := active)
      requires active == (m.active && (LostIn(m, fates, done) == {} || AnyActive(slaves)))
      modifies this`slaves, this`active, this`wire, this`replies
      ensures Wired()
      ensures Model() == ServedTo(m, image, fates, done + {fd}).(active := active)
      ensures active == (m.active && (LostIn(m, fates, done + {fd}) == {} || AnyActive(slaves)))
    {
      hide GapFree, ReplyBytes, AnyActive, ServedTo, LostIn, Wired;
      StillActive(slaves, fd);
      SlaveWired(m, fd);
      assert [] + SENDFILE_FAILED == SENDFILE_FAILED;
      ServedNext(m, image, fates, done, fd);
      SilentBytes(replid);
      var start := slaves[fd].start;
      if fd in fates && fates[fd] == Missing {
        SendMissing(fd);
        FewerActive(slaves, fd);
        RemoveSlave(fd);
        return;
      }
      slaves := slaves[fd := slaves[fd].(stage := SendingRdb)];
      Announce(fd, start, image, fates);
      if fd in fates {
        FewerActive(slaves, fd);
        RemoveSlave(fd);
      } else {
        StillActive(slaves, fd);
      }
    }

    method SendMissing(fd: Fd)
      requires Wired() && fd in replies && replies[fd] == SILENT
      modifies this`wire, this`replies
      ensures Wired() && replies == old(replies)[fd := SILENT.(err := SILENT.err + RDB_MISSING)]
    {
      hide ReplyBytes;
      ErrSent(replid, SILENT, RDB_MISSING);
      Send(fd, RDB_MISSING, SILENT.(err := SILENT.err + RDB_MISSING));
    }

    /** The header, and then the file or the error. */
    method Announce(fd: Fd, start: nat, image: Bytes, fates: map<Fd, Fate>)
      requires Wired() && fd in replies && replies[fd] == SILENT
      modifies this`wire, this`replies
      ensures Wired()
      ensures replies == old(replies)[fd := if fd in fates then Reply(BrokenHead(start, |image|), [], SENDFILE_FAILED)
                                            else Reply(FullHead(start, image, None), [], [])]
    {
      hide ReplyBytes, FullLine, LengthLine;
      SilentBytes(replid);
      FullSent(replid, start, image);
      var header := FullLine(replid, start) + LengthLine(|image|);
      if fd in fates {
        assert [] + (header + SENDFILE_FAILED) == FullLine(replid, start) + LengthLine(|image|) + SENDFILE_FAILED;
        Send(fd, header + SENDFILE_FAILED, Reply(BrokenHead(start, |image|), [], SENDFILE_FAILED));
      } else {
        assert [] + (header + image) == FullLine(replid, start) + LengthLine(|image|) + image;
        Send(fd, header + image, Reply(FullHead(start, image, None), [], []));
      }
    }

    /** The sendfile callback. */
    method OnFileSent(fd: Fd, ok: bool)
      requires Valid()
      modifies this`slaves, this`active, this`wire, this`replies
      ensures Valid() && old(Model()).base <= |old(Model()).log| && Model() == SendFileDone(old(Model()), fd, ok)
    {
      hide GapFree, ReplyBytes, ReplicationMasters.RemoveSlave;
      ghost var m := Model();
      BacklogBase(m);
      SendFileDoneGapFree(m, fd, ok);
      if fd !in slaves || slaves[fd].stage != SendingRdb {
        return;
      }
      SlaveWired(m, fd);
      if !ok {
        RemoveSlave(fd);
        return;
      }
      SendBacklogToSlave(fd, m);
    }

    method SendBacklogToSlave(fd: Fd, ghost m: Master)
      requires backlog.Valid() && Wired() && m == Model() && GapFree(m) && m.base <= |m.log|
      requires fd in slaves && slaves[fd].stage == SendingRdb && fd in replies && replies[fd].head.FullHead?
      requires replies[fd] == Reply(FullHead(slaves[fd].start, replies[fd].head.image, None), [], [])
      modifies this`slaves, this`active, this`wire, this`replies
      ensures Wired() && Model() == SendFileDone(m, fd, true)
    {
      hide GapFree, ReplyBytes, ReplicationMasters.RemoveSlave, LengthLine;
      var start := slaves[fd].start;
      var retained := backlog.Contains(start);
      if !retained {
        ErrSent(replid, replies[fd], BACKLOG_LOST);
        Send(fd, BACKLOG_LOST, replies[fd].(err := replies[fd].err + BACKLOG_LOST));
        RemoveSlave(fd);
        return;
      }
      var copied, payload := backlog.CopyRange(start, backlog.tip);
      assert payload == backlog.log[start..];
      ghost var image := replies[fd].head.image;
      BacklogSent(replid, start, image, payload);
      assert wire[fd] + (LengthLine(|payload|) + payload) == wire[fd] + LengthLine(|payload|) + payload;
      Send(fd, LengthLine(|payload|) + payload, Reply(FullHead(start, image, Some(|payload|)), payload, []));
      assert [] + payload == payload;
      slaves := slaves[fd := slaves[fd].(stage := Synced)];
      var any := HasUnsynced();
      if !any {
        active := false;
      }
    }
  }

  function Aligned(slaves: map<Fd, Peer>, start: nat, todo: set<Fd>): map<Fd, Peer> {
    map fd | fd in slaves ::
      if slaves[fd].stage == WaitRdb && fd !in todo then slaves[fd].(start := start) else slaves[fd]
  }

  lemma NoneAligned(slaves: map<Fd, Peer>, start: nat)
    ensures Aligned(slaves, start, slaves.Keys) == slaves
  {}

  lemma AlignedNext(slaves: map<Fd, Peer>, start: nat, todo: set<Fd>, fd: Fd)
    requires fd in todo && fd in slaves
    ensures var was := Aligned(slaves, start, todo);
            && fd in was && was[fd] == slaves[fd]
            && Aligned(slaves, start, todo - {fd})
               == if slaves[fd].stage == WaitRdb then was[fd := slaves[fd].(start := start)] else was
  {}

  lemma AlignedAll(m: Master)
    ensures var start := if m.active then m.activeStart else |m.log|;
            ReplicationMasters.Align(m) == m.(active := true, activeStart := start, slaves := Aligned(m.slaves, start, {}))
  {}

  /** Replies once every waiter outside `todo` has been told that the save failed. */
  function Told(m: Master, todo: set<Fd>): map<Fd, Reply> {
    map fd | fd in m.out ::
      if fd in Waiters(m) && fd !in todo then m.out[fd].(err := m.out[fd].err + SAVE_FAILED) else m.out[fd]
  }

  lemma NoneTold(m: Master)
    ensures Told(m, Waiters(m)) == m.out
  {}

  lemma AllTold(m: Master)
    ensures DropWaiters(m) == m.(slaves := m.slaves - Waiters(m), out := Told(m, {}), active := false)
  {
    assert (map fd | fd in m.slaves && m.slaves[fd].stage != WaitRdb :: m.slaves[fd]) == m.slaves - Waiters(m);
    assert DropWaiters(m).out == Told(m, {});
  }

  lemma RemovedRest(m: Master, fd: Fd)
    ensures var a := ReplicationMasters.RemoveSlave(m, fd);
            && a.replid == m.replid && a.log == m.log && a.base == m.base && a.conns == m.conns && a.out == m.out
  {}

  lemma WaitingGapFree(m: Master, fd: Fd)
    requires GapFree(m) && fd in m.conns
    ensures var a := ReplicationMasters.RemoveSlave(m, fd);
            GapFree(a.(slaves := a.slaves[fd := Peer(WaitRdb, |m.log|)], out := a.out[fd := SILENT]))
  {
    hide PeerOk, ReplyOk;
    WaiterOk(m.log);
    RegisterGapFree(ReplicationMasters.RemoveSlave(m, fd), fd, Peer(WaitRdb, |m.log|), SILENT);
  }

  lemma LostGapFree(m: Master)
    requires GapFree(m)
    ensures GapFree(LoseChild(m))
  {
    hide PeerOk, ReplyOk;
  }

  lemma IdleGapFree(m: Master)
    requires GapFree(m)
    ensures GapFree(m.(child := Idle, saveStarted := false))
  {
    hide PeerOk, ReplyOk;
  }

  // ---- the finished snapshot is sent to one waiter after the other -----------------------------------------------

  function LostIn(m: Master, fates: map<Fd, Fate>, done: set<Fd>): set<Fd> {
    set fd | fd in done && fd in Waiters(m) && fd in fates
  }

  /** SendToWaiters as far as the waiters in `done`, the shared flag aside. */
  function ServedTo(m: Master, image: Bytes, fates: map<Fd, Fate>, done: set<Fd>): Master {
    m.(slaves := map fd | fd in m.slaves && fd !in LostIn(m, fates, done) ::
                   if fd in done && fd in Waiters(m) then m.slaves[fd].(stage := SendingRdb) else m.slaves[fd],
       out := map fd | fd in m.out ::
                if fd !in Waiters(m) || fd !in done then m.out[fd]
                else if fd !in fates then m.out[fd].(head := FullHead(m.slaves[fd].start, image, None))
                else Unsent(m.out[fd], m.slaves[fd].start, image, fates[fd]))
  }

  lemma NoneServed(m: Master, image: Bytes, fates: map<Fd, Fate>)
    ensures ServedTo(m, image, fates, {}) == m && LostIn(m, fates, {}) == {}
  {}

  lemma AllServed(m: Master, image: Bytes, fates: map<Fd, Fate>)
    ensures var n := ServedTo(m, image, fates, Waiters(m));
            SendToWaiters(m, image, fates)
            == n.(active := m.active && (LostIn(m, fates, Waiters(m)) == {} || AnyActive(n.slaves)))
  {
    hide AnyActive;
    assert (set fd | fd in Waiters(m) && fd in fates) == LostIn(m, fates, Waiters(m));
    var n := ServedTo(m, image, fates, Waiters(m));
    assert SendToWaiters(m, image, fates).slaves == n.slaves;
    assert SendToWaiters(m, image, fates).out == n.out;
  }

  lemma ServedNext(m: Master, image: Bytes, fates: map<Fd, Fate>, done: set<Fd>, fd: Fd)
    requires fd in Waiters(m) && fd in m.out && fd !in done && m.out[fd] == SILENT
    ensures var was, now := ServedTo(m, image, fates, done), ServedTo(m, image, fates, done + {fd});
            && now == was.(slaves := now.slaves, out := now.out)
            && fd in was.slaves && was.slaves[fd] == m.slaves[fd] && fd in was.out && was.out[fd] == SILENT
            && now.slaves == (if fd in fates then was.slaves - {fd} else was.slaves[fd := Peer(SendingRdb, m.slaves[fd].start)])
            && now.out == was.out[fd := if fd !in fates then Reply(FullHead(m.slaves[fd].start, image, None), [], [])
                                        else Unsent(SILENT, m.slaves[fd].start, image, fates[fd])]
            && LostIn(m, fates, done + {fd}) == LostIn(m, fates, done) + (if fd in fates then {fd} else {})
  {
    var was, now := ServedTo(m, image, fates, done), ServedTo(m, image, fates, done + {fd});
    assert now.slaves == (if fd in fates then was.slaves - {fd} else was.slaves[fd := Peer(SendingRdb, m.slaves[fd].start)]);
  }

  lemma StillActive(slaves: map<Fd, Peer>, fd: Fd)
    ensures fd in slaves && slaves[fd].stage != Synced ==> AnyActive(slaves)
  {}

  lemma NoneKicked(m: Master, frame: Bytes)
    ensures KickedReplies(m, frame, {}) == Pushed(m, frame, {})
  {}

  lemma KickedNext(m: Master, frame: Bytes, gone: set<Fd>, fd: Fd)
    requires fd in m.slaves && fd in m.out && fd !in gone
    ensures fd in KickedReplies(m, frame, gone)
    ensures var was := KickedReplies(m, frame, gone);
            KickedReplies(m, frame, gone + {fd})
            == if m.slaves[fd].stage == Synced then was else was[fd := was[fd].(err := was[fd].err + OVERFLOW)]
  {}

  /** Replies once the frame has gone to every synced replica outside `todo`. */
  function Pushed(m: Master, frame: Bytes, todo: set<Fd>): map<Fd, Reply> {
    map fd | fd in m.out ::
      if fd in m.slaves && m.slaves[fd].stage == Synced && fd !in todo
      then m.out[fd].(data := m.out[fd].data + frame) else m.out[fd]
  }

  function KickedReplies(m: Master, frame: Bytes, kicked: set<Fd>): map<Fd, Reply> {
    map fd | fd in m.out ::
      if fd in m.slaves && m.slaves[fd].stage == Synced then m.out[fd].(data := m.out[fd].data + frame)
      else if fd in m.slaves && fd in kicked then m.out[fd].(err := m.out[fd].err + OVERFLOW)
      else m.out[fd]
  }

  lemma SlaveWired(m: Master, fd: Fd)
    requires GapFree(m) && fd in m.slaves
    ensures fd in m.out && fd in m.conns && m.slaves[fd].start <= |m.log|
    ensures (m.slaves[fd].stage == Synced ==> m.out[fd].err == [])
    ensures m.slaves[fd].stage == WaitRdb ==> m.out[fd] == SILENT
    ensures m.slaves[fd].stage == SendingRdb ==> m.out[fd].head.FullHead? && m.out[fd] == Reply(FullHead(m.slaves[fd].start, m.out[fd].head.image, None), [], [])
  {
    assert PeerOk(m.slaves[fd], m.out[fd], m.log);
  }

  lemma BacklogBase(m: Master)
    requires GapFree(m)
    ensures m.base <= |m.log|
  {}

  lemma FewerActive(slaves: map<Fd, Peer>, fd: Fd)
    ensures AnyActive(slaves - {fd}) ==> AnyActive(slaves)
  {}

  lemma FeedIs(m: Master, frame: Bytes, slow: set<Fd>, n: Master)
    requires m.base <= |m.log|
    requires var base := BaseAfterFeed(m.base, |m.log|, m.cap, |frame|);
             var kicked := Kicked(m, base, slow);
             && n.replid == m.replid && n.cap == m.cap && n.log == m.log + frame && n.base == base
             && n.slaves == m.slaves - kicked && n.conns == m.conns - kicked && n.out == KickedReplies(m, frame, kicked)
             && n.active == (m.active && (kicked == {} || AnyActive(n.slaves) || m.saveStarted))
             && n.activeStart == m.activeStart && n.saveStarted == m.saveStarted && n.child == m.child
    ensures n == FeedFrame(m, frame, slow)
  {}
}
