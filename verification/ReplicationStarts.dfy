/** Snapshots and start offsets that belong to different moments: exactly when a replica that has caught
    up shows the master's data, and the runs that lead there. */
module ReplicationStarts {
  import opened ByteStrings
  import opened Commands
  import opened Views
  import opened VNodeStorages
  import opened VNodeIndexes
  import opened Databases
  import opened Frames
  import opened Mutations
  import opened ReplicationBacklogs
  import opened Snapshots
  import opened ReplicationSlaves
  import opened ReplicationMasters
  import opened Replication
  import opened ReplicationParser
  import opened ReplicationInvariants
  import opened ReplicationTheorems
  import opened ReplicationConvergence
  import opened ReplicationLimits
  import opened ReplicationLiveness

  // ---- the exact condition ----------------------------------------------------------------------------------------

  /** A replica that has caught up, if no write escaped the feed since its snapshot was forked. With a start
      after the fork it misses the commands in between; with a start before the fork it applies those in
      between a second time, on top of their own outcome. Either is harmless exactly if those commands
      change nothing of the snapshot that the rest of the feed leaves alone. */
  lemma SettledAgrees(s: Sys, hint: Walk)
    requires Inv(s) && Settled(s, hint) && s.sl.state == Streaming && s.loaded.Some?
    requires s.loaded.value.snap.mark.epoch == s.epoch
    ensures s.loaded.value.snap.mark.k <= |s.fed| && s.loaded.value.start.k <= |s.fed|
    ensures var l := s.loaded.value;
            var v, fork, start := ViewOf(l.snap.db), l.snap.mark.k, l.start.k;
            if l.waited then
              start <= fork
              && (ViewOf(s.sl.db) == ViewOf(s.db) <==> AgreeExcept(v, Effects(v, s.fed[start..fork]), Places(s.fed[fork..])))
            else
              fork <= start
              && (ViewOf(s.sl.db) == ViewOf(s.db) <==> AgreeExcept(v, Effects(v, s.fed[fork..start]), Places(s.fed[start..])))
  {
    hide GapFree, MasterInv, LinkInv, SlaveInv, LogInv, ViewOf, Coherent, Settled, OrdersOf, Effects, AgreeExcept, Places;
    SettledShows(s, hint);
    var l := s.loaded.value;
    SnapAhead(s, l.snap);
    var v := ViewOf(l.snap.db);
    if l.waited {
      Doubled(v, s.fed, l.start.k, l.snap.mark.k);
    } else {
      Skipped(v, s.fed, l.snap.mark.k, l.start.k);
    }
  }

  /** The feed since the fork leads the snapshot to the master's data. */
  lemma SnapAhead(s: Sys, sn: Snap)
    requires LogInv(s) && SnapOk(s, sn) && sn.mark.epoch == s.epoch
    ensures sn.mark.k <= |s.fed| && Effects(ViewOf(sn.db), s.fed[sn.mark.k..]) == ViewOf(s.db)
  {
    hide ViewOf, Coherent, Effects, OrdersOf;
    var a := s.fed[s.since..sn.mark.k];
    assert s.fed[s.since..] == a + s.fed[sn.mark.k..];
    EffectsConcat(s.from, a, s.fed[sn.mark.k..]);
  }

  lemma Skipped(v: View, fed: seq<Cmd>, fork: nat, start: nat)
    requires fork <= start <= |fed|
    ensures Effects(v, fed[start..]) == Effects(v, fed[fork..])
            <==> AgreeExcept(v, Effects(v, fed[fork..start]), Places(fed[start..]))
  {
    hide Effects, AgreeExcept, Places;
    assert fed[fork..] == fed[fork..start] + fed[start..];
    EffectsConcat(v, fed[fork..start], fed[start..]);
    SameAfterLog(v, Effects(v, fed[fork..start]), fed[start..]);
  }

  lemma Doubled(v: View, fed: seq<Cmd>, start: nat, fork: nat)
    requires start <= fork <= |fed|
    ensures Effects(v, fed[start..]) == Effects(v, fed[fork..])
            <==> AgreeExcept(v, Effects(v, fed[start..fork]), Places(fed[fork..]))
  {
    hide Effects, AgreeExcept, Places;
    assert fed[start..] == fed[start..fork] + fed[fork..];
    EffectsConcat(v, fed[start..fork], fed[fork..]);
    SameAfterLog(v, Effects(v, fed[start..fork]), fed[fork..]);
  }

  /** Over every run: a replica loads a sound snapshot forked at moment p, whether it was waiting then or not,
      no write escapes the feed from the fork on, and it catches up, over any lost links. Its data are
      the master's if and only if the commands between fork and start change nothing that the
      rest of the feed leaves alone. */
  lemma ResyncAgrees(ss: seq<Sys>, es: seq<Event>, p: nat, i: nat, j: nat, hint: Walk)
    requires IsRun(ss, es) && p <= i < j < |ss| && FinishesLoad(ss[i], es[i])
    requires var fd := ss[i].link.value.fd;
             fd in ss[i].sent && Sound(ss[i].sent[fd].snap) && ss[i].sent[fd].snap.mark == Now(ss[p])
    requires forall q | p <= q < j :: !Unfed(ss[q], es[q])
    requires forall q | i < q < j :: !Announces(ss[q], es[q])
    requires Settled(ss[j], hint) && ss[j].sl.state == Streaming
    ensures var fd := ss[i].link.value.fd;
            var v, fed, fork := ViewOf(ss[i].sent[fd].snap.db), ss[j].fed, |ss[p].fed|;
            && fd in ss[i].marks && fork <= |fed| && ss[i].marks[fd].k <= |fed|
            && var start := ss[i].marks[fd].k;
               if ss[i].sent[fd].waited then
                 start <= fork
                 && (ViewOf(ss[j].sl.db) == ViewOf(ss[j].db) <==> AgreeExcept(v, Effects(v, fed[start..fork]), Places(fed[fork..])))
               else
                 fork <= start
                 && (ViewOf(ss[j].sl.db) == ViewOf(ss[j].db) <==> AgreeExcept(v, Effects(v, fed[fork..start]), Places(fed[start..])))
  {
    hide Announces, Settled, ViewOf, Inv, Initial, Sound, Effects, FinishesLoad, Unfed, AgreeExcept, Places;
    LoadedRunShows(ss, es, i, j, hint);
    EpochCounts(ss, es, p, j);
    RunKeeps(ss, es, j);
    SettledAgrees(ss[j], hint);
  }

  // ---- the followed replica waits, is fed past, and is served ------------------------------------------------------

  /** The followed replica has asked on d and waits there with this start. */
  ghost predicate Waiting(s: Sys, d: Fd, start: nat, mark: Mark) {
    && s.link == Some(Link(d, 0, true)) && s.sl.state == WaitFullresync
    && d in s.m.conns && d in s.m.slaves && s.m.slaves[d] == Peer(WaitRdb, start) && d in s.marks && s.marks[d] == mark
  }

  /** What the steps below leave alone while a fullsync save is running. */
  ghost predicate SameCycle(s: Sys, t: Sys) {
    && t.m.child == s.m.child && t.m.saveStarted == s.m.saveStarted && t.child == s.child && t.waited == s.waited
    && t.m.cap == s.m.cap && t.m.base == s.m.base && t.m.replid == s.m.replid && t.epoch == s.epoch && t.sl == s.sl
  }

  /** A write while it waits is fed and, if the ring has room, drops nothing. */
  lemma FedWhileWaiting(s: Sys, c: Cmd, d: Fd, start: nat, mark: Mark)
    requires GapFree(s.m) && Waiting(s, d, start, mark) && s.m.base <= start && s.m.base <= |s.m.log|
    requires |s.m.log| - s.m.base + |Encode(c)| <= s.m.cap
    ensures var t := WriteStep(s, c, true, {});
            && Waiting(t, d, start, mark) && SameCycle(s, t) && t.fed == s.fed + [c] && t.db == Apply(s.db, c).db
            && t.m.log == s.m.log + Encode(c)
  {
    hide Apply, Encode, GapFree, AnyActive;
    RoomKeepsBase(s.m.base, |s.m.log|, s.m.cap, |Encode(c)|);
  }

  lemma RoomKeepsBase(base: nat, tip: nat, cap: nat, n: nat)
    requires base <= tip && tip - base + n <= cap
    ensures BaseAfterFeed(base, tip, cap, n) == base
  {}

  lemma {:induction false} FedAllWhileWaiting(s: Sys, writes: seq<Cmd>, d: Fd, start: nat, mark: Mark)
      returns (ss: seq<Sys>, es: seq<Event>)
    requires Inv(s) && Waiting(s, d, start, mark) && s.m.base <= start && Changes(s.db, writes)
    requires s.m.base <= |s.m.log| && |s.m.log| - s.m.base + |EncodeAll(writes)| <= s.m.cap
    ensures |es| == |writes| && Steps(ss, es) && ss[0] == s && Inv(ss[|es|])
    ensures forall i | 0 <= i < |es| :: es[i] == Event.Write(writes[i], true, {})
    ensures var t := ss[|es|];
            Waiting(t, d, start, mark) && SameCycle(s, t) && t.fed == s.fed + writes && t.db == Run(s.db, writes).db
    decreases |writes|
  {
    hide Inv, Apply, Follows, Encode, EncodeAll, Waiting, Step, SameCycle;
    if writes == [] {
      assert s.fed + writes == s.fed;
      SameItself(s);
      return [s], [];
    }
    EncodeAllSplit(writes, 1);
    EncodeFirst(writes);
    var t := OneFed(s, writes[0], d, start, mark);
    DoneOk(s.db, writes[0]);
    var rest, more := FedAllWhileWaiting(t, writes[1..], d, start, mark);
    var e := Event.Write(writes[0], true, {});
    OneThenSteps(s, e, t, rest, more);
    ss, es := [s] + rest, [e] + more;
    assert s.fed + [writes[0]] + writes[1..] == s.fed + writes;
    SameTrans(s, t, ss[|es|]);
  }

  lemma SameItself(s: Sys)
    ensures SameCycle(s, s)
  {}

  lemma SameTrans(s: Sys, t: Sys, u: Sys)
    requires SameCycle(s, t) && SameCycle(t, u)
    ensures SameCycle(s, u)
  {}

  lemma OneFed(s: Sys, c: Cmd, d: Fd, start: nat, mark: Mark) returns (t: Sys)
    requires Inv(s) && Waiting(s, d, start, mark) && s.m.base <= start && Apply(s.db, c).done
    requires s.m.base <= |s.m.log| && |s.m.log| - s.m.base + |Encode(c)| <= s.m.cap
    ensures Follows(s, Event.Write(c, true, {}), t) && Inv(t) && Waiting(t, d, start, mark) && SameCycle(s, t)
    ensures t.fed == s.fed + [c] && t.db == Apply(s.db, c).db && t.m.log == s.m.log + Encode(c) && t.m.base == s.m.base && t.m.cap == s.m.cap
  {
    hide Inv, Apply, Follows, Encode, Waiting;
    InvGap(s);
    FedWhileWaiting(s, c, d, start, mark);
    FollowsStep(s, Event.Write(c, true, {}));
    StepKeeps(s, Event.Write(c, true, {}));
    t := Step(s, Event.Write(c, true, {}));
  }

  lemma EncodeFirst(writes: seq<Cmd>)
    requires writes != []
    ensures EncodeAll(writes[..1]) == Encode(writes[0])
  {
    hide Encode;
    assert writes[..1] == [] + [writes[0]];
    EncodeAllSnoc([], writes[0]);
    assert EncodeAll([]) + Encode(writes[0]) == Encode(writes[0]);
  }

  /** The finished save sends it the snapshot. */
  lemma SaveArrives(s: Sys, d: Fd, start: nat, mark: Mark)
    requires GapFree(s.m) && Waiting(s, d, start, mark) && s.m.saveStarted && s.m.child.Saving? && s.m.child.fullsync
    ensures var t := SaveEndsStep(s, true, map[], None);
            && t.link == s.link && t.sl == s.sl && t.db == s.db && t.fed == s.fed && t.epoch == s.epoch && t.m.replid == s.m.replid
            && t.m.log == s.m.log && t.m.base == s.m.base && d in t.marks && t.marks[d] == mark
            && d in t.m.slaves && t.m.slaves[d] == Peer(SendingRdb, start)
            && d in t.m.out && t.m.out[d] == Reply(FullHead(start, s.m.child.image, None), [], [])
            && d in t.sent && t.sent[d] == Sent(s.child, d in s.waited)
  {
    hide AnyActive, ReplyOk, RunAt;
    assert PeerOk(s.m.slaves[d], s.m.out[d], s.m.log);
    assert d in Waiters(s.m);
  }

  /** The file has been sent: the backlog follows it if the start is retained, an error line if not. */
  lemma FileArrives(s: Sys, d: Fd, start: nat, image: Bytes)
    requires s.m.base <= |s.m.log| && start <= |s.m.log|
    requires d in s.m.slaves && s.m.slaves[d] == Peer(SendingRdb, start)
    requires d in s.m.out && s.m.out[d] == Reply(FullHead(start, image, None), [], [])
    ensures var t := s.(m := SendFileDone(s.m, d, true));
            && t.m.log == s.m.log && t.m.replid == s.m.replid && d in t.m.out
            && (if Retains(s.m, start) then
                  && t.m.out[d] == Reply(FullHead(start, image, Some(|s.m.log| - start)), s.m.log[start..], [])
                  && d in t.m.slaves && t.m.slaves[d] == Peer(Synced, start)
                else
                  t.m.out[d] == Reply(FullHead(start, image, None), [], BACKLOG_LOST) && d !in t.m.slaves)
  {
    hide AnyActive;
    assert [] + s.m.log[start..] == s.m.log[start..];
    assert [] + BACKLOG_LOST == BACKLOG_LOST;
  }

  /** The replica reads everything that is on its connection. */
  lemma ReadsAll(s: Sys, d: Fd)
    requires s.m.base <= |s.m.log| && s.link == Some(Link(d, 0, true)) && d in s.m.out
    ensures Enabled(s, SlaveReceives(|BytesOn(s, d)|))
    ensures var n := |BytesOn(s, d)|;
            var t := Step(s, SlaveReceives(n));
            && t == s.(sl := t.sl, link := t.link) && t.link == Some(Link(d, n, true))
            && t.sl == Receive(s.sl, BytesOn(s, d))
  {
    hide ReplyBytes;
    var bytes := BytesOn(s, d);
    assert bytes[0..0 + |bytes|] == bytes;
  }

  lemma ThreeSteps(s: Sys, e: Event, t: Sys, f: Event, u: Sys, g: Event, v: Sys)
    requires Follows(s, e, t) && Follows(t, f, u) && Follows(u, g, v)
    ensures Steps([s, t, u, v], [e, f, g])
  {
    hide Follows;
    var ss, es := [s, t, u, v], [e, f, g];
    forall i | 0 <= i < 3 ensures Follows(ss[i], es[i], ss[i + 1]) {}
  }

  /** From waiting to having everything on its connection read, with nothing else happening. */
  lemma ServedRun(s: Sys, d: Fd, start: nat, mark: Mark) returns (ss: seq<Sys>, es: seq<Event>)
    requires Inv(s) && Waiting(s, d, start, mark) && s.m.saveStarted && s.m.child.Saving? && s.m.child.fullsync
    ensures |es| == 3 && Steps(ss, es) && ss[0] == s && Inv(ss[3])
    ensures start <= |s.m.log|
    ensures var t := ss[3];
            && t.db == s.db && t.fed == s.fed && t.epoch == s.epoch && t.m.log == s.m.log && t.m.replid == s.m.replid
            && d in t.marks && t.marks[d] == mark && d in t.sent && t.sent[d] == Sent(s.child, d in s.waited)
            && d in t.m.out && t.link == Some(Link(d, |BytesOn(t, d)|, true)) && t.sl == Receive(s.sl, BytesOn(t, d))
            && (if Retains(s.m, start) then
                  && t.m.out[d] == Reply(FullHead(start, s.m.child.image, Some(|s.m.log| - start)), s.m.log[start..], [])
                  && d in t.m.slaves && t.m.slaves[d] == Peer(Synced, start)
                else
                  t.m.out[d] == Reply(FullHead(start, s.m.child.image, None), [], BACKLOG_LOST) && d !in t.m.slaves)
  {
    hide Inv, Waiting, SaveEndsStep, SendFileDone, Retains, ReplyBytes, GapFree, Step, Enabled;
    InvGap(s);
    StartInside(s, d, start, mark);
    var e, f := SaveEnds(true, map[], None), FileSent(d, true);
    SaveEndsIsStep(s);
    FollowsStep(s, e);
    StepKeeps(s, e);
    SaveArrives(s, d, start, mark);
    var t := Step(s, e);
    InvGap(t);
    GapBase(t.m);
    FileSentIsStep(t, d);
    FollowsStep(t, f);
    StepKeeps(t, f);
    FileArrives(t, d, start, s.m.child.image);
    SameRetains(s.m, t.m, start);
    var u := Step(t, f);
    InvGap(u);
    GapBase(u.m);
    assert u.link == Some(Link(d, 0, true)) by { WaitingLink(s, d, start, mark); }
    ReadsAll(u, d);
    var g := SlaveReceives(|BytesOn(u, d)|);
    FollowsStep(u, g);
    StepKeeps(u, g);
    var v := Step(u, g);
    SameBytes(u, v, d);
    ThreeSteps(s, e, t, f, u, g, v);
    ss, es := [s, t, u, v], [e, f, g];
  }

  lemma WaitingLink(s: Sys, d: Fd, start: nat, mark: Mark)
    requires Waiting(s, d, start, mark)
    ensures s.link == Some(Link(d, 0, true))
  {}

  lemma StartInside(s: Sys, d: Fd, start: nat, mark: Mark)
    requires GapFree(s.m) && Waiting(s, d, start, mark)
    ensures start <= |s.m.log| && s.m.base <= |s.m.log|
  {
    hide ReplyOk;
    assert PeerOk(s.m.slaves[d], s.m.out[d], s.m.log);
  }

  lemma SaveEndsIsStep(s: Sys)
    requires s.m.child.Saving? && s.m.base <= |s.m.log|
    ensures Enabled(s, SaveEnds(true, map[], None)) && Step(s, SaveEnds(true, map[], None)) == SaveEndsStep(s, true, map[], None)
  {
    hide SaveEndsStep;
  }

  lemma FileSentIsStep(s: Sys, d: Fd)
    requires s.m.base <= |s.m.log|
    ensures Enabled(s, FileSent(d, true)) && Step(s, FileSent(d, true)) == s.(m := SendFileDone(s.m, d, true))
  {
    hide SendFileDone;
  }

  lemma SameRetains(m: Master, n: Master, start: nat)
    requires n.log == m.log && n.base == m.base
    ensures Retains(n, start) <==> Retains(m, start)
  {}

  /** ... and on to rest, if the start is still retained. */
  lemma ServedArrives(s: Sys, d: Fd, start: nat, mark: Mark, hint: Walk) returns (ss: seq<Sys>, es: seq<Event>)
    requires Inv(s) && Waiting(s, d, start, mark) && s.m.saveStarted && s.m.child.Saving? && s.m.child.fullsync
    requires Sound(s.child) && Retains(s.m, start)
    ensures Steps(ss, es) && ss[0] == s && mark.k <= |s.fed|
    ensures var t := ss[|es|];
            && Inv(t) && t.db == s.db && t.fed == s.fed && t.epoch == s.epoch
            && t.sl.state == (if Run(Reloaded(s.child.db, hint.first), s.fed[mark.k..]).ok then Streaming else Error)
            && (t.sl.state == Streaming ==>
                  Settled(t, hint) && t.loaded == Some(Loaded(s.child, d in s.waited, mark)) && t.sl.offset == |t.m.log|)
  {
    hide Inv, Waiting, Retains, ReplyBytes, Steps, Settled, Sound, Run, Reloaded, ViewOf, Effects, AllRead, Promised, Applicable;
    var first, events := ServedRun(s, d, start, mark);
    LastOf(first, events);
    var t := first[3];
    ServedPromised(s, t, d, start, mark, hint);
    var rest, more := Arrives(t, hint);
    LastOf(rest, more);
    StepsConcat(first, events, rest, more);
    ss, es := first + rest[1..], events + more;
  }

  lemma LastOf(ss: seq<Sys>, es: seq<Event>)
    requires Steps(ss, es)
    ensures |ss| == |es| + 1
  {
    hide Follows;
  }

  lemma ServedPromised(s: Sys, t: Sys, d: Fd, start: nat, mark: Mark, hint: Walk)
    requires Inv(t) && Waiting(s, d, start, mark) && Sound(s.child) && t.fed == s.fed
    requires d in t.marks && t.marks[d] == mark && d in t.sent && t.sent[d] == Sent(s.child, d in s.waited)
    requires d in t.m.out && t.link == Some(Link(d, |BytesOn(t, d)|, true)) && t.sl == Receive(s.sl, BytesOn(t, d))
    requires t.m.out[d].head.FullHead? && d in t.m.slaves && t.m.slaves[d] == Peer(Synced, start)
    ensures AllRead(t) && Promised(t) && BeforeLoad(t.sl) && Offered(t) == Loaded(s.child, d in s.waited, mark)
    ensures mark.k <= |t.fed| && (Applicable(t, hint) <==> Run(Reloaded(s.child.db, hint.first), s.fed[mark.k..]).ok)
  {
    hide Inv, Sound, Run, Reloaded, ReplyBytes, AllRead, Promised;
    ReadsPromised(s, t, d, start, mark);
    StartWithin(t);
    OfferApplies(t, hint);
  }

  lemma ReadsPromised(s: Sys, t: Sys, d: Fd, start: nat, mark: Mark)
    requires Waiting(s, d, start, mark) && Sound(s.child)
    requires d in t.marks && t.marks[d] == mark && d in t.sent && t.sent[d] == Sent(s.child, d in s.waited)
    requires d in t.m.out && t.link == Some(Link(d, |BytesOn(t, d)|, true)) && t.sl == Receive(s.sl, BytesOn(t, d))
    requires t.m.out[d].head.FullHead? && d in t.m.slaves && t.m.slaves[d] == Peer(Synced, start)
    ensures AllRead(t) && Promised(t) && BeforeLoad(t.sl) && Offered(t) == Loaded(s.child, d in s.waited, mark)
  {
    hide Sound, ReplyBytes;
  }

  lemma StartWithin(t: Sys)
    requires Inv(t) && Promised(t)
    ensures Offered(t).start.k <= |t.fed|
  {
    hide Inv, OrdersOf, Image, Coherent, Promised;
    OfferedImage(t);
  }

  lemma OfferApplies(t: Sys, hint: Walk)
    requires Promised(t) && BeforeLoad(t.sl) && Offered(t).start.k <= |t.fed|
    ensures Applicable(t, hint) <==> Run(Reloaded(Offered(t).snap.db, hint.first), t.fed[Offered(t).start.k..]).ok
  {
    hide Sound, Run, Reloaded;
  }

  // ---- a replica that asks too late --------------------------------------------------------------------------------------

  const ANY: Bytes := [63]

  /** A replica without an offset of this master's connects and asks; `u` is the state with only the connection made. */
  lemma AsksFresh(s: Sys, d: Fd, fork: Option<Orders>) returns (u: Sys, t: Sys)
    requires Inv(s) && s.link.None? && !Ours(s) && d !in s.m.out && ForkFits(s, fork)
    ensures Follows(s, SlaveConnects(d), Dialled(s, d)) && Follows(Dialled(s, d), SlaveAsks(fork), t) && Inv(t)
    ensures u == s.(m := Open(s.m, d), sl := u.sl, link := Some(Link(d, 0, true)))
    ensures u.sl.state == WaitFullresync && d in u.m.conns && d !in u.m.slaves && d in u.m.out && u.m.out[d] == SILENT
    ensures GapFree(u.m) && ForkFits(u, fork) && t == PsyncStep(u, d, ANY, -1, fork)
  {
    hide Inv, PsyncStep, OrdersOf, GapFree;
    InvGap(s);
    GapBase(s.m);
    FreshFd(s.m, d);
    var x := Dialled(s, d);
    FollowsStep(s, SlaveConnects(d));
    StepKeeps(s, SlaveConnects(d));
    InvGap(x);
    GapBase(x.m);
    u := x.(link := Some(Link(d, 0, true)));
    OpensConn(s.m, d);
    FollowsStep(x, SlaveAsks(fork));
    StepKeeps(x, SlaveAsks(fork));
    AsksIs(x, fork);
    t := Step(x, SlaveAsks(fork));
    AsksAnew(x, u, fork);
  }

  /** Whatever id and offset it names, it is treated like one that names none. */
  lemma AsksAnew(x: Sys, u: Sys, fork: Option<Orders>)
    requires !Ours(x) && u.m == x.m && ForkFits(u, fork) && x.link.Some?
    ensures var known := x.sl.haveOffset && x.sl.replid != [];
            PsyncStep(u, x.link.value.fd, if known then x.sl.replid else ANY, if known then x.sl.offset else -1, fork)
            == PsyncStep(u, x.link.value.fd, ANY, -1, fork)
  {
    hide Started, Registered, OrdersOf, ForkOf;
    NobodysPsync(u.m, x.link.value.fd, if x.sl.haveOffset && x.sl.replid != [] then x.sl.replid else ANY,
                 if x.sl.haveOffset && x.sl.replid != [] then x.sl.offset else -1, ForkOf(u, fork));
  }

  lemma NobodysPsync(m: Master, fd: Fd, replid: Bytes, offset: int, fork: Fork)
    requires replid != m.replid || offset < 0
    ensures !Continues(m, fd, replid, offset) && !Continues(m, fd, ANY, -1)
    ensures fd !in m.conns ==> OnPsync(m, fd, replid, offset, fork) == m && OnPsync(m, fd, ANY, -1, fork) == m
  {}

  /** The state after connecting. */
  function Dialled(s: Sys, d: Fd): Sys {
    s.(m := Open(s.m, d), sl := ResetLink(s.sl).(state := WaitFullresync), link := Some(Link(d, 0, false)))
  }

  lemma OpensConn(m: Master, d: Fd)
    requires d !in m.out
    ensures d in Open(m, d).conns
  {}

  /** Asking while a fullsync save is running: the present tip is the start, and the fork was before it. */
  lemma LatePsync(s: Sys, d: Fd)
    requires d in s.m.conns && d !in s.m.slaves && s.m.saveStarted && s.link == Some(Link(d, 0, true)) && s.sl.state == WaitFullresync
    ensures var t := PsyncStep(s, d, ANY, -1, None);
            Waiting(t, d, |s.m.log|, Now(s)) && d !in t.waited && SameCycleButWaited(s, t) && t.fed == s.fed && t.db == s.db && t.m.log == s.m.log
  {}

  ghost predicate SameCycleButWaited(s: Sys, t: Sys) { SameCycle(s, t.(waited := s.waited)) }

  /** A replica asks while a fullsync save is running, the commands in `more` are written and fed while it
      waits, the save ends and it is served and left alone. It was not waiting at the fork, and what was fed
      between the fork and its request never reaches it. It ends at the master's offset, streaming exactly if
      `more` can be applied to the snapshot, and then shows the master's data if and only if what it
      missed changes nothing that `more` leaves alone. */
  lemma LateRun(s: Sys, d: Fd, more: seq<Cmd>, hint: Walk) returns (ss: seq<Sys>, es: seq<Event>)
    requires Inv(s) && s.link.None? && !Ours(s) && d !in s.m.out
    requires s.m.saveStarted && s.m.child.Saving? && s.m.child.fullsync && Sound(s.child) && s.child.mark.epoch == s.epoch
    requires Changes(s.db, more) && s.m.base <= |s.m.log| && |s.m.log| - s.m.base + |EncodeAll(more)| <= s.m.cap
    ensures Steps(ss, es) && ss[0] == s && s.child.mark.k <= |s.fed|
    ensures var t := ss[|es|];
            var v := ViewOf(s.child.db);
            && t.db == Run(s.db, more).db && t.fed == s.fed + more
            && t.sl.state == (if Run(Reloaded(s.child.db, hint.first), more).ok then Streaming else Error)
            && (t.sl.state == Streaming ==>
                  && Settled(t, hint) && t.sl.offset == |t.m.log|
                  && (ViewOf(t.sl.db) == ViewOf(t.db) <==> AgreeExcept(v, Effects(v, s.fed[s.child.mark.k..]), Places(more))))
  {
    hide Inv, Waiting, ReplyBytes, Steps, Settled, Sound, Run, Reloaded, ViewOf, Effects, AgreeExcept, Places, Changes, EncodeAll,
      Follows, PsyncStep, Open, GapFree;
    var u, w := AsksFresh(s, d, None);
    OpensOnly(s.m, d);
    LatePsync(u, d);
    var first, events := FedAllWhileWaiting(w, more, d, |s.m.log|, Now(s));
    LastOf(first, events);
    var x := first[|events|];
    TipRetained(w, x, d, |s.m.log|, Now(s));
    var rest, others := ServedArrives(x, d, |s.m.log|, Now(s), hint);
    LastOf(rest, others);
    TwoSteps(s, SlaveConnects(d), Dialled(s, d), SlaveAsks(None), w);
    StepsConcat([s, Dialled(s, d), w], [SlaveConnects(d), SlaveAsks(None)], first, events);
    StepsConcat([s, Dialled(s, d), w] + first[1..], [SlaveConnects(d), SlaveAsks(None)] + events, rest, others);
    ss, es := [s, Dialled(s, d), w] + first[1..] + rest[1..], [SlaveConnects(d), SlaveAsks(None)] + events + others;
    var t := rest[|others|];
    assert ss[|es|] == t by { LastShared([s, Dialled(s, d), w] + first[1..], rest); }
    LogInside(s);
    assert (s.fed + more)[|s.fed|..] == more && (s.fed + more)[s.child.mark.k..|s.fed|] == s.fed[s.child.mark.k..];
    if t.sl.state == Streaming {
      SettledAgrees(t, hint);
    }
  }

  lemma LastShared(a: seq<Sys>, b: seq<Sys>)
    requires a != [] && b != [] && a[|a| - 1] == b[0]
    ensures (a + b[1..])[|a| + |b| - 2] == b[|b| - 1]
  {}

  lemma TwoSteps(s: Sys, e: Event, t: Sys, f: Event, u: Sys)
    requires Follows(s, e, t) && Follows(t, f, u)
    ensures Steps([s, t, u], [e, f])
  {
    hide Follows;
    var ss, es := [s, t, u], [e, f];
    forall i | 0 <= i < 2 ensures Follows(ss[i], es[i], ss[i + 1]) {}
  }

  lemma OpensOnly(m: Master, d: Fd)
    requires d !in m.out
    ensures Open(m, d) == m.(conns := m.conns + {d}, out := m.out[d := SILENT])
  {}

  lemma TipRetained(s: Sys, t: Sys, d: Fd, start: nat, mark: Mark)
    requires SameCycle(s, t) && s.m.base <= start && Inv(t) && Waiting(t, d, start, mark)
    ensures Retains(t.m, start)
  {
    hide Inv;
    InvGap(t);
    StartInside(t, d, start, mark);
  }

  /** The running save's moment lies within the feed. */
  lemma LogInside(s: Sys)
    requires Inv(s) && s.m.child.Saving?
    ensures s.child.mark.k <= |s.fed|
  {
    hide GapFree, LogInv, LinkInv, SlaveInv, HeadOk, OrdersOf, Coherent, ViewOf, Image;
  }

  // ---- a start offset left over from an abandoned full resync ---------------------------------------------------------

  /** Since the first request, at s, a save is running whose shared start is that moment. */
  ghost predicate Cycling(s: Sys, t: Sys) {
    && t.m.active && t.activeMark == Now(s) && t.m.activeStart == |s.m.log|
    && t.m.saveStarted && t.m.child.Saving? && t.m.child.fullsync
    && t.link.None? && t.sl == s.sl && t.m.out.Keys == s.m.out.Keys && t.m.cap == s.m.cap && t.m.replid == s.m.replid
  }

  lemma Forks(s: Sys, a: Fd, o: Orders)
    requires s.m.slaves == map[] && !s.m.saveStarted && s.m.child == Idle && a in s.m.conns && a in s.m.out
    requires OrdersOf(o, s.db) && s.link.None?
    ensures var t := PsyncStep(s, a, ANY, -1, Some(o));
            && Cycling(s, t) && t.m.slaves.Keys == {a} && t.m.log == s.m.log && t.m.base == s.m.base
            && t.m.conns == s.m.conns && t.db == s.db && t.fed == s.fed && t.epoch == s.epoch
  {
    hide OrdersOf, Image;
    assert a in Waiters(Registered(s, a).m);
  }

  lemma FedWhileCycling(s: Sys, t: Sys, c: Cmd)
    requires Cycling(s, t) && t.m.slaves != map[] && t.m.base <= |t.m.log|
    ensures var u := WriteStep(t, c, true, {});
            && Cycling(s, u) && u.m.slaves.Keys <= t.m.slaves.Keys && t.m.conns - t.m.slaves.Keys <= u.m.conns
            && u.m.log == t.m.log + Encode(c) && u.m.base == BaseAfterFeed(t.m.base, |t.m.log|, t.m.cap, |Encode(c)|)
            && u.fed == t.fed + [c] && u.db == Apply(t.db, c).db && u.epoch == t.epoch
  {
    hide Apply, Encode;
  }

  lemma Leaves(s: Sys, t: Sys, a: Fd)
    requires Cycling(s, t) && t.m.slaves.Keys <= {a}
    ensures var u := t.(m := Close(t.m, a));
            Cycling(s, u) && u.m.slaves == map[] && u.m.conns == t.m.conns - {a} && u.m.log == t.m.log && u.m.base == t.m.base
  {}

  lemma Escaping(s: Sys, t: Sys, c: Cmd)
    requires Cycling(s, t) && t.m.slaves == map[] && t.m.base <= |t.m.log|
    ensures var u := WriteStep(t, c, true, {});
            Cycling(s, u) && u.m == t.m && u.fed == t.fed && u.db == Apply(t.db, c).db && u.epoch == t.epoch + 1
  {
    hide Apply;
  }

  lemma JoinsLate(s: Sys, t: Sys, b: Fd)
    requires Cycling(s, t) && t.m.slaves == map[] && b in t.m.conns && b in t.m.out
    ensures var u := PsyncStep(t, b, ANY, -1, None);
            && Cycling(s, u) && u.m.slaves == map[b := Peer(WaitRdb, |t.m.log|)] && u.m.log == t.m.log && u.m.base == t.m.base
            && u.m.conns == t.m.conns && u.fed == t.fed && u.db == t.db && u.epoch == t.epoch
  {}

  /** The first request's start is still shared while b is being sent its snapshot. */
  ghost predicate Leftover(s: Sys, t: Sys, b: Fd) {
    && t.m.active && t.activeMark == Now(s) && t.m.activeStart == |s.m.log| && !t.m.saveStarted && t.m.child == Idle
    && b in t.m.slaves && t.m.slaves[b].stage == SendingRdb
    && t.link.None? && t.sl == s.sl && t.m.out.Keys == s.m.out.Keys && t.m.cap == s.m.cap && t.m.replid == s.m.replid
  }

  lemma ServesLate(s: Sys, t: Sys, b: Fd)
    requires Cycling(s, t) && t.m.slaves.Keys == {b} && t.m.slaves[b].stage == WaitRdb
    ensures var u := SaveEndsStep(t, true, map[], None);
            && Leftover(s, u, b) && u.m.log == t.m.log && u.m.base == t.m.base
            && u.fed == t.fed && u.db == t.db && u.epoch == t.epoch
  {
    assert Waiters(t.m) == {b};
  }

  /** A replica (a) goes away while its save runs, a write escapes, and another (b) asks during that save
      and is then being sent its snapshot: the start taken for a is still the shared one. */
  lemma StartLeftOver(s: Sys, a: Fd, b: Fd, c: Cmd, escaped: Cmd, o: Orders) returns (t: Sys, ss: seq<Sys>, es: seq<Event>)
    requires Inv(s) && s.m.slaves == map[] && !s.m.saveStarted && s.m.child == Idle && s.link.None?
    requires {a, b} <= s.m.conns && a != b && OrdersOf(o, s.db)
    requires Apply(s.db, c).done && Apply(Apply(s.db, c).db, escaped).done
    ensures |es| == 6 && Steps(ss, es) && ss[0] == s && ss[6] == t && Inv(t) && Leftover(s, t, b)
    ensures t.fed == s.fed + [c] && t.db == Apply(Apply(s.db, c).db, escaped).db && t.epoch == s.epoch + 1
    ensures s.m.base <= |s.m.log| && t.m.log == s.m.log + Encode(c)
    ensures t.m.base == BaseAfterFeed(s.m.base, |s.m.log|, s.m.cap, |Encode(c)|)
  {
    hide Inv, OrdersOf, Apply, Cycling, Leftover, Encode, BaseAfterFeed, Follows;
    var u, first, e := Abandons(s, a, c, o);
    var rest, f;
    t, rest, f := JoinsAndServes(s, u, b, escaped);
    StepsConcat(first, e, rest, f);
    ss, es := first + rest[1..], e + f;
  }

  /** The first replica asks, a command is fed, and it goes away. */
  lemma Abandons(s: Sys, a: Fd, c: Cmd, o: Orders) returns (t: Sys, ss: seq<Sys>, es: seq<Event>)
    requires Inv(s) && s.m.slaves == map[] && !s.m.saveStarted && s.m.child == Idle && s.link.None?
    requires a in s.m.conns && OrdersOf(o, s.db) && Apply(s.db, c).done
    ensures |es| == 3 && Steps(ss, es) && ss[0] == s && ss[3] == t && Inv(t) && Cycling(s, t) && t.m.slaves == map[]
    ensures t.fed == s.fed + [c] && t.db == Apply(s.db, c).db && t.epoch == s.epoch && s.m.conns - {a} <= t.m.conns
    ensures s.m.base <= |s.m.log| && t.m.log == s.m.log + Encode(c)
    ensures t.m.base == BaseAfterFeed(s.m.base, |s.m.log|, s.m.cap, |Encode(c)|)
  {
    hide Inv, Coherent, OrdersOf, Image, Apply, PsyncStep, WriteStep, Close, Cycling, Encode, BaseAfterFeed;
    InvGap(s);
    GapBase(s.m);
    ConnsOut(s.m);
    var e1, e2, e3 := Psync(a, ANY, -1, Some(o)), Event.Write(c, true, {}), Disconnect(a);
    Forks(s, a, o);
    FollowsStep(s, e1);
    StepKeeps(s, e1);
    var t1 := Step(s, e1);
    CyclingFacts(s, t1);
    InvGap(t1);
    GapBase(t1.m);
    FedWhileCycling(s, t1, c);
    FollowsStep(t1, e2);
    StepKeeps(t1, e2);
    var t2 := Step(t1, e2);
    Leaves(s, t2, a);
    FollowsStep(t2, e3);
    StepKeeps(t2, e3);
    t := Step(t2, e3);
    ThreeSteps(s, e1, t1, e2, t2, e3, t);
    ss, es := [s, t1, t2, t], [e1, e2, e3];
  }

  /** A write escapes, the second replica asks, and the save ends and serves it. */
  lemma JoinsAndServes(s: Sys, u: Sys, b: Fd, escaped: Cmd) returns (t: Sys, ss: seq<Sys>, es: seq<Event>)
    requires Inv(u) && Cycling(s, u) && u.m.slaves == map[] && b in u.m.conns && Apply(u.db, escaped).done
    ensures |es| == 3 && Steps(ss, es) && ss[0] == u && ss[3] == t && Inv(t) && Leftover(s, t, b)
    ensures t.fed == u.fed && t.db == Apply(u.db, escaped).db && t.epoch == u.epoch + 1 && t.m.log == u.m.log && t.m.base == u.m.base
  {
    hide Inv, Coherent, OrdersOf, Image, Apply, PsyncStep, WriteStep, SaveEndsStep, Cycling, Leftover;
    var e4, e5, e6 := Event.Write(escaped, true, {}), Psync(b, ANY, -1, None), SaveEnds(true, map[], None);
    InvGap(u);
    GapBase(u.m);
    ConnsOut(u.m);
    Escaping(s, u, escaped);
    FollowsStep(u, e4);
    StepKeeps(u, e4);
    var t4 := Step(u, e4);
    CyclingFacts(s, t4);
    JoinsLate(s, t4, b);
    FollowsStep(t4, e5);
    StepKeeps(t4, e5);
    var t5 := Step(t4, e5);
    CyclingFacts(s, t5);
    ServesLate(s, t5, b);
    FollowsStep(t5, e6);
    StepKeeps(t5, e6);
    t := Step(t5, e6);
    ThreeSteps(u, e4, t4, e5, t5, e6, t);
    ss, es := [u, t4, t5, t], [e4, e5, e6];
  }

  lemma ConnsOut(m: Master)
    requires GapFree(m)
    ensures forall fd | fd in m.conns :: fd in m.out
  {
    hide ReplyOk, PeerOk;
  }

  lemma CyclingFacts(s: Sys, t: Sys)
    requires Cycling(s, t)
    ensures t.link.None? && t.m.out.Keys == s.m.out.Keys && t.m.child.Saving? && t.m.cap == s.m.cap
  {}

  /** The next replica to ask is given that old start, and a save of its own forked now. */
  lemma TakesOldStart(s: Sys, t: Sys, d: Fd, b: Fd, o: Orders)
    requires t.m.active && !t.m.saveStarted && t.m.child == Idle && OrdersOf(o, t.db)
    requires t.link == Some(Link(d, 0, true)) && t.sl.state == WaitFullresync && d in t.m.conns
    requires b != d && b in t.m.slaves && t.m.slaves[b].stage == SendingRdb
    ensures var u := PsyncStep(t, d, ANY, -1, Some(o));
            && Waiting(u, d, t.m.activeStart, t.activeMark) && d in u.waited && u.child == Snap(t.db, o, Now(t))
            && u.m.saveStarted && u.m.child.Saving? && u.m.child.fullsync && u.db == t.db && u.fed == t.fed && u.epoch == t.epoch
            && u.m.log == t.m.log && u.m.base == t.m.base && u.m.cap == t.m.cap && u.m.replid == t.m.replid && u.sl == t.sl
  {
    hide OrdersOf, Image;
    var left := t.m.slaves - {d};
    assert b in left && left[b].stage != Synced;
    assert AnyActive(left);
    assert d in Waiters(Registered(t, d).m);
  }

  /** The third replica (d) has connected and asked: it is waiting at the fork of its own save, with a start
      from before the escaped write. */
  lemma StaleAsk(s: Sys, a: Fd, b: Fd, d: Fd, c: Cmd, escaped: Cmd, o: Orders, p: Orders)
      returns (t: Sys, ss: seq<Sys>, es: seq<Event>)
    requires Inv(s) && s.m.slaves == map[] && !s.m.saveStarted && s.m.child == Idle && s.link.None? && !Ours(s)
    requires {a, b} <= s.m.conns && a != b && d !in s.m.out && OrdersOf(o, s.db)
    requires Apply(s.db, c).done && Apply(Apply(s.db, c).db, escaped).done
    requires OrdersOf(p, Apply(Apply(s.db, c).db, escaped).db)
    ensures |es| == 8 && Steps(ss, es) && ss[0] == s && ss[8] == t && Inv(t)
    ensures Waiting(t, d, |s.m.log|, Now(s)) && d in t.waited && t.m.saveStarted && t.m.child.Saving? && t.m.child.fullsync
    ensures t.child.db == t.db == Apply(Apply(s.db, c).db, escaped).db && t.child.orders == p
    ensures t.child.mark == Now(t) && t.fed == s.fed + [c]
    ensures s.m.base <= |s.m.log| && t.m.log == s.m.log + Encode(c) && t.m.cap == s.m.cap
    ensures t.m.base == BaseAfterFeed(s.m.base, |s.m.log|, s.m.cap, |Encode(c)|)
  {
    hide Inv, Coherent, OrdersOf, Image, Apply, PsyncStep, Encode, BaseAfterFeed, Waiting, Open, Follows, GapFree;
    var x, first, events := StartLeftOver(s, a, b, c, escaped, o);
    LeftoverFacts(s, x, b);
    assert ForkFits(x, Some(p));
    InvGap(x);
    BNotD(x, b, d);
    var u, w := AsksFresh(x, d, Some(p));
    OpensOnly(x.m, d);
    TakesOldStart(s, u, d, b, p);
    t := w;
    TwoSteps(x, SlaveConnects(d), Dialled(x, d), SlaveAsks(Some(p)), w);
    StepsConcat(first, events, [x, Dialled(x, d), w], [SlaveConnects(d), SlaveAsks(Some(p))]);
    ss, es := first + [x, Dialled(x, d), w][1..], events + [SlaveConnects(d), SlaveAsks(Some(p))];
  }

  lemma BNotD(s: Sys, b: Fd, d: Fd)
    requires GapFree(s.m) && b in s.m.slaves && d !in s.m.out
    ensures b != d
  {
    hide ReplyOk, PeerOk;
  }

  lemma LeftoverFacts(s: Sys, t: Sys, b: Fd)
    requires Leftover(s, t, b)
    ensures t.m.active && t.activeMark == Now(s) && t.m.activeStart == |s.m.log| && !t.m.saveStarted && t.m.child == Idle
    ensures b in t.m.slaves && t.m.slaves[b].stage == SendingRdb
    ensures t.link.None? && t.sl == s.sl && t.m.out.Keys == s.m.out.Keys && t.m.cap == s.m.cap
  {}

  /** That replica, served and left alone while the commands in `more` are written: its snapshot already has
      the escaped write, and the older command c is applied on top of it. It ends at the master's
      offset, streaming exactly if c and `more` can be applied to its snapshot, and then shows the master's data
      if and only if `more` overwrites c's place or the data already look the way c leaves them. */
  lemma StaleStartRun(s: Sys, a: Fd, b: Fd, d: Fd, c: Cmd, escaped: Cmd, more: seq<Cmd>, o: Orders, p: Orders, hint: Walk)
      returns (ss: seq<Sys>, es: seq<Event>)
    requires Inv(s) && s.m.slaves == map[] && !s.m.saveStarted && s.m.child == Idle && s.link.None? && !Ours(s)
    requires {a, b} <= s.m.conns && a != b && d !in s.m.out && OrdersOf(o, s.db)
    requires Apply(s.db, c).done && Apply(Apply(s.db, c).db, escaped).done
    requires var db := Apply(Apply(s.db, c).db, escaped).db;
             Sound(Snap(db, p, Mark(|s.fed| + 1, s.epoch + 1))) && Changes(db, more)
    requires s.m.base <= |s.m.log| && |s.m.log| - s.m.base + |Encode(c)| + |EncodeAll(more)| <= s.m.cap
    ensures Steps(ss, es) && ss[0] == s
    ensures var t := ss[|es|];
            var db := Apply(Apply(s.db, c).db, escaped).db;
            && t.db == Run(db, more).db
            && t.sl.state == (if Run(Reloaded(db, hint.first), [c] + more).ok then Streaming else Error)
            && (t.sl.state == Streaming ==>
                  && Settled(t, hint) && t.sl.offset == |t.m.log|
                  && (ViewOf(t.sl.db) == ViewOf(t.db)
                      <==> PlaceOf(c) in Places(more) || At(ViewOf(db), PlaceOf(c)) == Left(c)))
  {
    hide Inv, Waiting, ReplyBytes, Steps, Settled, Run, Reloaded, ViewOf, Effects, AgreeExcept, Places, Changes, EncodeAll, Encode,
      Apply, At, Effect, Left, OrdersOf, ImageFits, Sound;
    assert OrdersOf(p, Apply(Apply(s.db, c).db, escaped).db) by { SoundOrders(Snap(Apply(Apply(s.db, c).db, escaped).db, p, Mark(|s.fed| + 1, s.epoch + 1))); }
    var w, first, events := StaleAsk(s, a, b, d, c, escaped, o, p);
    RoomKeepsBase(s.m.base, |s.m.log|, s.m.cap, |Encode(c)|);
    var second, writes := FedAllWhileWaiting(w, more, d, |s.m.log|, Now(s));
    LastOf(first, events);
    LastOf(second, writes);
    var x := second[|writes|];
    TipRetained(w, x, d, |s.m.log|, Now(s));
    assert Sound(x.child) by { SoundAnyMark(w.child, Mark(|s.fed| + 1, s.epoch + 1)); }
    var third, others := ServedArrives(x, d, |s.m.log|, Now(s), hint);
    LastOf(third, others);
    StepsConcat(first, events, second, writes);
    LastShared(first, second);
    StepsConcat(first + second[1..], events + writes, third, others);
    LastShared(first + second[1..], third);
    ss, es := first + second[1..] + third[1..], events + writes + others;
    StaleOutcome(s, w, x, third[|others|], c, more, hint);
  }

  lemma SoundOrders(sn: Snap)
    requires Sound(sn)
    ensures OrdersOf(sn.orders, sn.db)
  {
    hide OrdersOf, ImageFits;
  }

  lemma SoundAnyMark(sn: Snap, mark: Mark)
    ensures Sound(sn) <==> Sound(sn.(mark := mark))
  {
    hide OrdersOf, ImageFits;
  }

  lemma StaleOutcome(s: Sys, w: Sys, x: Sys, t: Sys, c: Cmd, more: seq<Cmd>, hint: Walk)
    requires Inv(t) && w.fed == s.fed + [c] && x.fed == w.fed + more && t.fed == x.fed && t.epoch == x.epoch == w.epoch
    requires w.child.mark == Now(w) && x.child == w.child
    ensures x.fed[|s.fed|..] == [c] + more
    ensures t.sl.state == Streaming && Settled(t, hint) && t.loaded == Some(Loaded(x.child, true, Now(s)))
            ==> var v := ViewOf(w.child.db);
                (ViewOf(t.sl.db) == ViewOf(t.db) <==> PlaceOf(c) in Places(more) || At(v, PlaceOf(c)) == Left(c))
  {
    hide Inv, Settled, ViewOf, Effects, AgreeExcept, Places, At, Effect, Left;
    if t.sl.state == Streaming && Settled(t, hint) && t.loaded == Some(Loaded(x.child, true, Now(s))) {
      SettledAgrees(t, hint);
      var v := ViewOf(w.child.db);
      assert t.fed[|s.fed|..|s.fed| + 1] == [c] && t.fed[|s.fed| + 1..] == more;
      EffectsOne(v, c);
      SameAfterLog(v, Effect(v, c), more);
      MissedWrite(v, c, more);
    }
  }
}
