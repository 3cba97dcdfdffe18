/** What each event of ReplicationMaster puts on the wire of a connection, who stays registered and who is cut
    off; and when the shared start of one fullsync cycle leaks into the next. */
module MasterAnswers {
  import opened ByteStrings
  import opened ReplicationBacklogs
  import opened ReplicationMasters

  function Wire(m: Master, fd: Fd): Bytes
    requires fd in m.out
  {
    ReplyBytes(m.replid, m.out[fd])
  }

  /** These bytes follow what was on the wire. */
  predicate Gains(m: Master, n: Master, fd: Fd, more: Bytes) {
    fd in m.out && fd in n.out && Wire(n, fd) == Wire(m, fd) + more
  }

  predicate SameConns(m: Master, n: Master, fd: Fd) { fd in n.conns <==> fd in m.conns }

  /** Connected and registered as before. */
  predicate Stays(m: Master, n: Master, fd: Fd) {
    && SameConns(m, n, fd) && (fd in n.slaves <==> fd in m.slaves) && (fd in m.slaves ==> n.slaves[fd] == m.slaves[fd])
  }

  /** Registered like this now, on the same connection. */
  predicate Becomes(m: Master, n: Master, fd: Fd, p: Peer) { SameConns(m, n, fd) && fd in n.slaves && n.slaves[fd] == p }

  /** No longer a replica, but its connection is left open. */
  predicate Forgotten(m: Master, n: Master, fd: Fd) { SameConns(m, n, fd) && fd !in n.slaves }

  predicate CutOff(n: Master, fd: Fd) { fd !in n.slaves && fd !in n.conns }

  predicate At(m: Master, fd: Fd, stage: Stage) { fd in m.slaves && m.slaves[fd].stage == stage }

  // ---- a fed frame ------------------------------------------------------------------------------------------------

  /** A fed frame goes to every synced replica, and only a slow one is cut off for it. One that is not synced
      yet is told of the overflow and cut off if its start is no longer retained, and left alone if it is. */
  lemma FeedAnswers(m: Master, frame: Bytes, slow: set<Fd>, fd: Fd)
    requires GapFree(m) && fd in m.out
    ensures var n := FeedFrame(m, frame, slow);
            var overtaken := fd in m.slaves && m.slaves[fd].stage != Synced && !Retains(n, m.slaves[fd].start);
            && Gains(m, n, fd, if At(m, fd, Synced) then frame else if overtaken then OVERFLOW else [])
            && (if overtaken || (At(m, fd, Synced) && fd in slow) then CutOff(n, fd) else Stays(m, n, fd))
  {
    hide HeadBytes, ReplyBytes, BaseAfterFeed;
    var r := m.out[fd];
    if fd in m.slaves && m.slaves[fd].stage == Synced {
      assert PeerOk(m.slaves[fd], r, m.log);
      FrameAdded(m.replid, r, frame);
    }
    ErrorAdded(m.replid, r, OVERFLOW);
    assert Wire(m, fd) + [] == Wire(m, fd);
  }

  lemma FrameAdded(replid: Bytes, r: Reply, frame: Bytes)
    requires r.err == []
    ensures ReplyBytes(replid, r.(data := r.data + frame)) == ReplyBytes(replid, r) + frame
  {
    hide HeadBytes;
    var h := HeadBytes(replid, r.head);
    assert h + (r.data + frame) + [] == h + r.data + [] + frame;
  }

  // ---- a save starts or ends --------------------------------------------------------------------------------------

  /** Where those who wait for the next fullsync save start: at the offset shared since the cycle began, or at the tip. */
  function SharedStart(m: Master): nat { if m.active then m.activeStart else |m.log| }

  /** When a fullsync's save is to be forked, all waiters get the shared start; if the fork fails they are told
      so and forgotten. Nobody else notices. */
  lemma StartAnswers(m: Master, fork: Fork, fd: Fd)
    requires GapFree(m) && fd in m.out
    ensures var n := StartFullsync(m, fork);
            var starts := At(m, fd, WaitRdb) && !m.saveStarted;
            var failed := starts && m.child.Idle? && fork.ForkFailed?;
            && Gains(m, n, fd, if failed then SAVE_FAILED else [])
            && (failed ==> Forgotten(m, n, fd))
            && (starts && !failed ==> Becomes(m, n, fd, Peer(WaitRdb, SharedStart(m))))
            && (!starts ==> Stays(m, n, fd))
  {
    hide HeadBytes, ReplyBytes, GapFree;
    assert Wire(m, fd) + [] == Wire(m, fd);
    ErrorAdded(m.replid, m.out[fd], SAVE_FAILED);
    assert At(m, fd, WaitRdb) ==> fd in Waiters(m);
  }

  lemma ErrorAdded(replid: Bytes, r: Reply, err: Bytes)
    ensures ReplyBytes(replid, r.(err := r.err + err)) == ReplyBytes(replid, r) + err
  {
    hide HeadBytes;
    assert HeadBytes(replid, r.head) + r.data + (r.err + err) == ReplyBytes(replid, r) + err;
  }

  /** The snapshot's announcement: the start offset, the length, the file. */
  function Announced(replid: Bytes, start: nat, image: Bytes): Bytes {
    FullLine(replid, start) + LengthLine(|image|) + image
  }

  /** What a waiter is sent when a fullsync's save has ended: its own start with the snapshot; or the error, when
      the save failed, the file is gone, or it cannot be opened after it has been announced. */
  function EndOf(m: Master, ok: bool, fates: map<Fd, Fate>, fd: Fd): Bytes
    requires fd in m.slaves && m.child.Saving?
  {
    if !ok then SAVE_FAILED
    else if fd !in fates then Announced(m.replid, m.slaves[fd].start, m.child.image)
    else if fates[fd] == Missing then RDB_MISSING
    else FullLine(m.replid, m.slaves[fd].start) + LengthLine(|m.child.image|) + SENDFILE_FAILED
  }

  /** At the end of a fullsync's save each waiter is sent its due; it has yet to be sent the backlog, or is forgotten.
      Nobody else notices. */
  lemma EndAnswers(m: Master, ok: bool, fates: map<Fd, Fate>, fork: Fork, fd: Fd)
    requires GapFree(m) && fd in m.out && m.child.Saving? && m.saveStarted && m.child.fullsync
    ensures var n := SaveDone(m, ok, fates, fork);
            && (!At(m, fd, WaitRdb) ==> Gains(m, n, fd, []) && Stays(m, n, fd))
            && (At(m, fd, WaitRdb) ==> Wire(m, fd) == [] && fd in n.out && Wire(n, fd) == EndOf(m, ok, fates, fd))
            && (At(m, fd, WaitRdb) && ok && fd !in fates ==> Becomes(m, n, fd, Peer(SendingRdb, m.slaves[fd].start)))
            && (At(m, fd, WaitRdb) && !(ok && fd !in fates) ==> Forgotten(m, n, fd))
  {
    hide ReplyBytes, GapFree, SendToWaiters, DropWaiters, Announced, FullLine, LengthLine;
    if At(m, fd, WaitRdb) {
      WaiterSilent(m, fd);
      var a := m.(child := Idle, saveStarted := false);
      Dropped(a, fd);
      SentTo(a, m.child.image, fates, fd);
      ErrorWire(m.replid, m.slaves[fd].start, m.child.image);
    } else {
      EndElsewhere(m, ok, fates, fork, fd);
    }
  }

  lemma Dropped(m: Master, fd: Fd)
    requires fd in m.out && m.out[fd] == SILENT && At(m, fd, WaitRdb)
    ensures var n := DropWaiters(m);
            n.replid == m.replid && fd in n.out && n.out[fd] == Reply(NoHead, [], SAVE_FAILED) && Forgotten(m, n, fd)
  {
    assert fd in Waiters(m);
    assert [] + SAVE_FAILED == SAVE_FAILED;
  }

  lemma SentTo(m: Master, image: Bytes, fates: map<Fd, Fate>, fd: Fd)
    requires fd in m.out && m.out[fd] == SILENT && At(m, fd, WaitRdb)
    ensures var n := SendToWaiters(m, image, fates);
            var start := m.slaves[fd].start;
            && n.replid == m.replid && fd in n.out
            && (fd !in fates ==> n.out[fd] == Reply(FullHead(start, image, None), [], []) && Becomes(m, n, fd, Peer(SendingRdb, start)))
            && (fd in fates ==> Forgotten(m, n, fd))
            && (fd in fates && fates[fd] == Missing ==> n.out[fd] == Reply(NoHead, [], RDB_MISSING))
            && (fd in fates && fates[fd] == Unopened ==> n.out[fd] == Reply(BrokenHead(start, |image|), [], SENDFILE_FAILED))
  {
    hide AnyActive;
    assert fd in Waiters(m);
    assert [] + RDB_MISSING == RDB_MISSING && [] + SENDFILE_FAILED == SENDFILE_FAILED;
  }

  lemma ErrorWire(replid: Bytes, start: nat, image: Bytes)
    ensures forall err :: ReplyBytes(replid, Reply(NoHead, [], err)) == err
    ensures ReplyBytes(replid, Reply(FullHead(start, image, None), [], [])) == Announced(replid, start, image)
    ensures ReplyBytes(replid, Reply(BrokenHead(start, |image|), [], SENDFILE_FAILED))
         == FullLine(replid, start) + LengthLine(|image|) + SENDFILE_FAILED
  {
    hide FullLine, LengthLine;
    forall err ensures ReplyBytes(replid, Reply(NoHead, [], err)) == err {
      assert [] + err == err;
    }
  }

  lemma WaiterSilent(m: Master, fd: Fd)
    requires GapFree(m) && At(m, fd, WaitRdb)
    ensures fd in m.out && m.out[fd] == SILENT && Wire(m, fd) == []
  {}

  lemma EndElsewhere(m: Master, ok: bool, fates: map<Fd, Fate>, fork: Fork, fd: Fd)
    requires fd in m.out && m.child.Saving? && m.saveStarted && m.child.fullsync && !At(m, fd, WaitRdb)
    ensures var n := SaveDone(m, ok, fates, fork); Gains(m, n, fd, []) && Stays(m, n, fd)
  {
    hide ReplyBytes;
    assert Wire(m, fd) + [] == Wire(m, fd);
  }
  /** The end of any other save is a new start for those who wait. */
  lemma OtherEndAnswers(m: Master, ok: bool, fates: map<Fd, Fate>, fork: Fork, fd: Fd)
    requires GapFree(m) && fd in m.out && m.child.Saving? && !(m.saveStarted && m.child.fullsync)
    ensures var n := SaveDone(m, ok, fates, fork);
            && Gains(m, n, fd, if At(m, fd, WaitRdb) && fork.ForkFailed? then SAVE_FAILED else [])
            && (if !At(m, fd, WaitRdb) then Stays(m, n, fd)
                else if fork.ForkFailed? then Forgotten(m, n, fd)
                else Becomes(m, n, fd, Peer(WaitRdb, SharedStart(m))))
  {
    hide StartFullsync;
    StartAnswers(m.(child := Idle, saveStarted := false), fork, fd);
  }

  // ---- the snapshot has been sent ----------------------------------------------------------------------------------

  /** Behind the snapshot goes the whole log from the replica's start, whose length comes first; or the error if
      that start is no longer retained. A replica whose file was not sent is forgotten without a word. */
  lemma FileAnswers(m: Master, fd: Fd, ok: bool, other: Fd)
    requires GapFree(m) && At(m, fd, SendingRdb)
    ensures m.base <= |m.log| && m.slaves[fd].start <= |m.log|
    ensures var n := SendFileDone(m, fd, ok);
            var start := m.slaves[fd].start;
            if !ok then Gains(m, n, fd, []) && Forgotten(m, n, fd)
            else if m.base <= start then
              Gains(m, n, fd, LengthLine(|m.log| - start) + m.log[start..]) && Becomes(m, n, fd, Peer(Synced, start))
            else Gains(m, n, fd, BACKLOG_LOST) && Forgotten(m, n, fd)
    ensures other != fd && other in m.out ==>
              Gains(m, SendFileDone(m, fd, ok), other, []) && Stays(m, SendFileDone(m, fd, ok), other)
  {
    hide FullLine, LengthLine, AnyActive;
    var p, r := m.slaves[fd], m.out[fd];
    assert PeerOk(p, r, m.log);
    FileWire(m.replid, r, m.log[p.start..]);
    assert other in m.out ==> Wire(m, other) + [] == Wire(m, other);
    assert Wire(m, fd) + [] == Wire(m, fd);
  }

  lemma FileWire(replid: Bytes, r: Reply, payload: Bytes)
    requires r.head.FullHead? && r.head.backlog.None? && r.data == [] && r.err == []
    ensures ReplyBytes(replid, r.(err := r.err + BACKLOG_LOST)) == ReplyBytes(replid, r) + BACKLOG_LOST
    ensures ReplyBytes(replid, r.(head := r.head.(backlog := Some(|payload|)), data := r.data + payload))
         == ReplyBytes(replid, r) + (LengthLine(|payload|) + payload)
  {
    hide FullLine, LengthLine;
    var h := FullLine(replid, r.head.offset) + LengthLine(|r.head.image|) + r.head.image;
    assert h + [] == h && [] + payload == payload && [] + BACKLOG_LOST == BACKLOG_LOST;
    assert h + LengthLine(|payload|) + payload + [] == h + (LengthLine(|payload|) + payload);
  }

  // ---- one start for one cycle ------------------------------------------------------------------------------------

  /** Those who wait for a save that has yet to be forked for them all have the shared start. */
  ghost predicate OneStart(m: Master) {
    Waiters(m) != {} && !m.saveStarted ==> m.active && forall fd | fd in Waiters(m) :: m.slaves[fd].start == m.activeStart
  }

  /** Nobody unsynced and no save of the cycle: then no start is shared either. */
  ghost predicate Over(m: Master) { m.active ==> AnyActive(m.slaves) || m.saveStarted }

  lemma PsyncStarts(m: Master, fd: Fd, replid: Bytes, offset: int, fork: Fork)
    requires OneStart(m)
    ensures OneStart(OnPsync(m, fd, replid, offset, fork))
    ensures Over(m) ==> Over(OnPsync(m, fd, replid, offset, fork))
  {
    if fd in m.conns {
      var a := RemoveSlave(m, fd);
      assert Waiters(a) == Waiters(m) - {fd};
      if !WantsFullsync(replid, offset) && replid == m.replid && Retains(m, offset) {
        var n := OnPsync(m, fd, replid, offset, fork);
        assert Waiters(n) == Waiters(a);
        SameActive(a.slaves, n.slaves, fd);
      } else {
        var b := a.(slaves := a.slaves[fd := Peer(WaitRdb, |m.log|)], out := a.out[fd := SILENT]);
        assert b.slaves[fd].stage != Synced;
        StartStarts(b, fork);
      }
    }
  }

  /** A synced replica, or none, on fd: who is unsynced elsewhere decides. */
  lemma SameActive(a: map<Fd, Peer>, b: map<Fd, Peer>, fd: Fd)
    requires a - {fd} == b - {fd}
    requires fd in a ==> a[fd].stage == Synced
    requires fd in b ==> b[fd].stage == Synced
    ensures AnyActive(a) <==> AnyActive(b)
  {
    if AnyActive(a) {
      var g :| g in a && a[g].stage != Synced;
      assert g in a - {fd} && (a - {fd})[g] == a[g];
    }
    if AnyActive(b) {
      var g :| g in b && b[g].stage != Synced;
      assert g in b - {fd} && (b - {fd})[g] == b[g];
    }
  }

  lemma StartStarts(m: Master, fork: Fork)
    ensures OneStart(StartFullsync(m, fork))
    ensures (!m.saveStarted && Waiters(m) != {}) || Over(m) ==> Over(StartFullsync(m, fork))
  {
    if !m.saveStarted && Waiters(m) != {} {
      var fd :| fd in Waiters(m);
      assert Waiters(Align(m)) == Waiters(m);
      assert fd in Align(m).slaves && Align(m).slaves[fd].stage != Synced;
      assert Waiters(DropWaiters(Align(m))) == {};
    }
  }

  /** The cycle goes on as long as somebody is unsynced or its save is running, and from the same start. */
  ghost predicate Lasts(m: Master, n: Master) {
    (n.active <==> m.active && (AnyActive(n.slaves) || m.saveStarted)) && n.activeStart == m.activeStart
  }

  /** A replica that is closed, cut off or forgotten ends the cycle only if it was the last one. Once a snapshot has
      been sent in full, a save that is still running no longer counts. */
  lemma CycleLasts(m: Master, fd: Fd, frame: Bytes, slow: set<Fd>, replid: Bytes, offset: int, fork: Fork)
    requires GapFree(m) && Over(m)
    ensures Lasts(m, Close(m, fd)) && Lasts(m, FeedFrame(m, frame, slow)) && Lasts(m, SendFileDone(m, fd, false))
    ensures At(m, fd, SendingRdb) && m.base <= m.slaves[fd].start ==>
              var n := SendFileDone(m, fd, true); (n.active <==> m.active && AnyActive(n.slaves)) && n.activeStart == m.activeStart
    ensures At(m, fd, SendingRdb) && m.base > m.slaves[fd].start ==> Lasts(m, SendFileDone(m, fd, true))
  {
    hide BaseAfterFeed, AfterFrame;
    assert m.slaves - {} == m.slaves;
  }

  /** A closed connection is gone with its replica; a new one has been sent nothing and is no replica. */
  lemma ConnectionAnswers(m: Master, fd: Fd, other: Fd)
    requires GapFree(m)
    ensures CutOff(Close(m, fd), fd)
    ensures other != fd && other in m.out ==> Stays(m, Close(m, fd), other) && Gains(m, Close(m, fd), other, [])
    ensures fd !in m.out ==> var n := Open(m, fd); fd in n.conns && fd in n.out && Wire(n, fd) == [] && fd !in n.slaves
    ensures other in m.out ==> Stays(m, Open(m, fd), other) && Gains(m, Open(m, fd), other, [])
  {
    hide FullLine, LengthLine;
    assert other in m.out ==> Wire(m, other) + [] == Wire(m, other);
  }

  /** Feeding, sending files, SAVE, new and closed connections and a lost child keep both. */
  lemma OthersStart(m: Master, fd: Fd, ok: bool, fork: Fork)
    requires OneStart(m) && m.base <= |m.log|
    ensures OneStart(SendFileDone(m, fd, ok)) && OneStart(SaveCommand(m, fork)) && OneStart(LoseChild(m))
    ensures OneStart(Open(m, fd)) && OneStart(Close(m, fd))
    ensures Over(m) ==> Over(SendFileDone(m, fd, ok)) && Over(SaveCommand(m, fork)) && Over(LoseChild(m))
    ensures Over(m) ==> Over(Open(m, fd)) && Over(Close(m, fd))
  {}

  lemma FeedStarts(m: Master, frame: Bytes, slow: set<Fd>)
    requires OneStart(m) && m.base <= |m.log|
    ensures OneStart(FeedFrame(m, frame, slow)) && (Over(m) ==> Over(FeedFrame(m, frame, slow)))
  {
    hide AfterFrame, BaseAfterFeed;
    assert m.slaves - {} == m.slaves;
  }

  /** A fullsync's save ends well, or an ordinary one after a lost fullsync's, when nobody is left unsynced. */
  ghost predicate Outlives(m: Master, ok: bool)
    requires m.child.Saving?
  {
    m.active && m.saveStarted && !AnyActive(m.slaves) && (ok || !m.child.fullsync)
  }

  /** The shared start outlives its cycle in exactly this case: the next replica to ask inherits it. */
  lemma EndStarts(m: Master, ok: bool, fates: map<Fd, Fate>, fork: Fork)
    requires OneStart(m) && m.child.Saving?
    ensures OneStart(SaveDone(m, ok, fates, fork))
    ensures Over(m) ==> (Over(SaveDone(m, ok, fates, fork)) <==> !Outlives(m, ok))
  {
    hide StartFullsync, SendToWaiters;
    var a := m.(child := Idle, saveStarted := false);
    if !(m.saveStarted && m.child.fullsync) {
      if Waiters(a) == {} {
        NoStart(a, fork);
      } else {
        var fd :| fd in Waiters(a);
        StartStarts(a, fork);
      }
    } else if ok {
      SendStarts(a, m.child.image, fates);
    }
  }

  lemma NoStart(m: Master, fork: Fork)
    requires Waiters(m) == {}
    ensures StartFullsync(m, fork) == m
  {}

  lemma SendStarts(m: Master, image: Bytes, fates: map<Fd, Fate>)
    ensures var n := SendToWaiters(m, image, fates);
            OneStart(n) && n.saveStarted == m.saveStarted
            && ((n.active ==> AnyActive(n.slaves)) <==> (m.active ==> AnyActive(m.slaves)))
  {
    hide Unsent;
    var n := SendToWaiters(m, image, fates);
    assert Waiters(n) == {};
    var lost := set fd | fd in Waiters(m) && fd in fates;
    if lost == {} {
      if AnyActive(m.slaves) {
        var fd :| fd in m.slaves && m.slaves[fd].stage != Synced;
        assert fd !in lost;
        assert fd in n.slaves && n.slaves[fd].stage != Synced;
      }
    } else {
      var fd :| fd in lost;
      assert fd in m.slaves && m.slaves[fd].stage != Synced;
    }
  }
}
