/** Who serves a waiter: in every run without a lost save child some running save does; after one is lost,
    exactly which later event does. */
module ReplicationWaiters {
  import opened ByteStrings
  import opened Commands
  import opened Databases
  import opened Frames
  import opened Views
  import opened Snapshots
  import opened ReplicationSlaves
  import opened ReplicationMasters
  import opened Replication
  import opened ReplicationInvariants
  import opened ReplicationConvergence
  import opened ReplicationLimits
  import opened MasterAnswers

  /** A full resync is asked for on this connection. */
  ghost predicate Resyncs(s: Sys, e: Event) {
    match e
    case Psync(fd, replid, offset, _) => fd in s.m.conns && !Continues(s.m, fd, replid, offset)
    case SlaveAsks(_) =>
      var known := s.sl.haveOffset && s.sl.replid != [];
      s.link.Some? && !Continues(s.m, s.link.value.fd, if known then s.sl.replid else [63], if known then s.sl.offset else -1)
    case _ => false
  }

  /** A request is made on fd. */
  predicate AsksOn(s: Sys, e: Event, fd: Fd) {
    (e.Psync? && e.fd == fd) || (e.SlaveAsks? && s.link.Some? && s.link.value.fd == fd)
  }

  // ---- what a step does to the fullsync cycle -----------------------------------------------------------------------

  /** The flags and the child, and who waits. */
  ghost predicate SameSave(m: Master, n: Master) {
    n.saveStarted == m.saveStarted && n.child == m.child && Waiters(n) <= Waiters(m)
  }

  lemma StartIs(m: Master, fork: Fork)
    ensures var n := StartFullsync(m, fork);
            if m.saveStarted || Waiters(m) == {} then n == m
            else if m.child.Saving? then n.child == m.child && !n.saveStarted && Waiters(n) == Waiters(m)
            else if fork.Forked? then n.child == Saving(true, fork.image) && n.saveStarted && Waiters(n) == Waiters(m)
            else n.child == m.child && !n.saveStarted && Waiters(n) == {}
  {
    AlignWaiters(m);
  }

  lemma FeedSaves(m: Master, frame: Bytes, slow: set<Fd>)
    requires m.base <= |m.log|
    ensures SameSave(m, FeedFrame(m, frame, slow))
  {
    FeedKeepsRest(m, frame, slow);
  }

  lemma FileSaves(m: Master, fd: Fd, ok: bool)
    requires GapFree(m)
    ensures m.base <= |m.log| && SameSave(m, SendFileDone(m, fd, ok))
  {
    hide SendFileDone, GapFree;
    GapBase(m);
    FileSentRest(m, fd, ok);
  }

  lemma OpenCloseSaves(m: Master, fd: Fd)
    requires GapFree(m)
    ensures SameSave(m, Open(m, fd)) && SameSave(m, Close(m, fd))
  {
    hide GapFree, Open, Close;
    OpenCloseRest(m, fd, fd);
  }

  /** A step that neither asks, nor saves, nor ends or loses a save. */
  lemma PlainSaves(s: Sys, e: Event)
    requires Inv(s) && Enabled(s, e)
    requires !(e.Psync? || e.SlaveAsks? || e.Save? || e.SaveEnds? || e.ChildLost?)
    ensures s.m.base <= |s.m.log| && SameSave(s.m, Step(s, e).m)
  {
    hide Inv, GapFree, FeedFrame, SendFileDone, Open, Close, RoundStep, Apply, ViewOf, Receive, Waiters;
    InvGap(s);
    GapBase(s.m);
    match e
    case Write(c, _, slow) => FeedSaves(s.m, Encode(c), slow);
    case FileSent(fd, ok) => FileSaves(s.m, fd, ok);
    case Connect(fd) => OpenCloseSaves(s.m, fd);
    case Disconnect(fd) => OpenCloseSaves(s.m, fd);
    case SlaveConnects(fd) => OpenCloseSaves(s.m, fd);
    case SlaveRound(hint) => RoundMaster(s, hint);
    case _ =>
  }

  lemma RoundMaster(s: Sys, hint: Walk)
    requires s.link.Some?
    ensures RoundStep(s, hint).m == s.m
  {
    hide Iterate, Sound, WholeFrames;
  }

  /** A request, as the master sees it: the connection is registered anew, and a full resync starts a save
      unless one is running for the same purpose. */
  lemma AsksIsPsync(s: Sys, fork: Option<Orders>)
    requires s.m.base <= |s.m.log| && Enabled(s, SlaveAsks(fork))
    ensures var known := s.sl.haveOffset && s.sl.replid != [];
            Step(s, SlaveAsks(fork)).m == OnPsync(s.m, s.link.value.fd, if known then s.sl.replid else [63],
                                                  if known then s.sl.offset else -1, ForkOf(s, fork))
  {
    hide PsyncStep, OnPsync, OrdersOf, ForkOf;
    AsksIs(s, fork);
    var u := s.(link := Some(s.link.value.(asked := true)));
    var known := s.sl.haveOffset && s.sl.replid != [];
    SameFork(s, u, fork);
    SameForkOf(s, u, fork);
    PsyncIsOnPsync(u, s.link.value.fd, if known then s.sl.replid else [63], if known then s.sl.offset else -1, fork);
  }

  lemma SameFork(s: Sys, t: Sys, fork: Option<Orders>)
    requires t.db == s.db && ForkFits(s, fork)
    ensures ForkFits(t, fork)
  {}

  lemma PsyncSaves(m: Master, fd: Fd, replid: Bytes, offset: int, fork: Fork)
    requires fd in m.conns
    ensures var n := OnPsync(m, fd, replid, offset, fork);
            if Continues(m, fd, replid, offset) then SameSave(m, n)
            else if m.saveStarted then n.saveStarted && n.child == m.child && Waiters(n) == Waiters(m) + {fd}
            else if m.child.Saving? then !n.saveStarted && n.child == m.child && Waiters(n) == Waiters(m) + {fd}
            else if fork.Forked? then n.saveStarted && n.child == Saving(true, fork.image) && Waiters(n) == Waiters(m) + {fd}
            else !n.saveStarted && n.child == m.child && Waiters(n) == {}
  {
    hide StartFullsync, AnyActive;
    var a := RemoveSlave(m, fd);
    var r := a.(slaves := a.slaves[fd := Peer(WaitRdb, |m.log|)], out := a.out[fd := SILENT]);
    assert Waiters(r) == Waiters(m) + {fd};
    assert fd in Waiters(r);
    StartIs(r, fork);
  }

  // ---- one start for one cycle ------------------------------------------------------------------------------------------

  /** In this step a start outlives its cycle. */
  ghost predicate Leaks(s: Sys, e: Event) { e.SaveEnds? && s.m.child.Saving? && Outlives(s.m, e.ok) }

  /** Waiters share one start over every step of the system, and a start outlives its cycle only at the end of a
      save nobody waits for. */
  lemma StepStarts(s: Sys, e: Event)
    requires Inv(s) && Enabled(s, e) && OneStart(s.m)
    ensures s.m.base <= |s.m.log| && OneStart(Step(s, e).m)
    ensures Over(s.m) ==> (Over(Step(s, e).m) <==> !Leaks(s, e))
  {
    hide Inv, PsyncStep, SaveStep, SaveEndsStep, AskStep, Open, Close, SendFileDone, RoundStep, OnPsync, SaveDone, Apply, ViewOf,
      OrdersOf, ForkOf, FeedFrame, OneStart, Over, Outlives, Receive, LoseChild, SaveCommand;
    InvGap(s);
    GapBase(s.m);
    match e
    case Write(c, _, slow) => FeedStarts(s.m, Encode(c), slow);
    case Connect(fd) => OthersStart(s.m, fd, true, ForkFailed);
    case Disconnect(fd) => OthersStart(s.m, fd, true, ForkFailed);
    case SlaveConnects(fd) => OthersStart(s.m, fd, true, ForkFailed);
    case FileSent(fd, ok) => OthersStart(s.m, fd, ok, ForkFailed);
    case ChildLost => OthersStart(s.m, 0, true, ForkFailed);
    case Psync(fd, replid, offset, fork) =>
      PsyncIsOnPsync(s, fd, replid, offset, fork);
      PsyncStarts(s.m, fd, replid, offset, ForkOf(s, fork));
    case SlaveAsks(fork) =>
      var known := s.sl.haveOffset && s.sl.replid != [];
      AsksIsPsync(s, fork);
      PsyncStarts(s.m, s.link.value.fd, if known then s.sl.replid else [63], if known then s.sl.offset else -1, ForkOf(s, fork));
    case Save(fork) =>
      SaveIs(s, fork);
      OthersStart(s.m, 0, true, ForkOf(s, fork));
    case SaveEnds(ok, fates, fork) =>
      EndIs(s, ok, fates, fork);
      EndStarts(s.m, ok, fates, ForkOf(s, fork));
    case SlaveRound(hint) => RoundMaster(s, hint);
    case _ =>
  }

  /** So in every run: those who wait for the same save share one start, and no start is left over unless one leaked. */
  lemma {:induction false} StartsShared(ss: seq<Sys>, es: seq<Event>, j: nat)
    requires IsRun(ss, es) && j < |ss|
    ensures OneStart(ss[j].m)
    ensures (forall p | 0 <= p < j :: !Leaks(ss[p], es[p])) ==> Over(ss[j].m)
  {
    hide Enabled, Step, Inv, Initial, OneStart, Over, Leaks;
    if j == 0 {
      FreshStarts(ss[0]);
    } else {
      StartsShared(ss, es, j - 1);
      RunKeeps(ss, es, j - 1);
      assert Follows(ss[j - 1], es[j - 1], ss[j]);
      StepStarts(ss[j - 1], es[j - 1]);
    }
  }

  lemma FreshStarts(s: Sys)
    requires Initial(s)
    ensures OneStart(s.m) && Over(s.m)
  {}

  // ---- without a lost child nobody is stranded -------------------------------------------------------------------------

  /** A waiter implies a running save, a running fullsync that the save writes its path, and every other
      event keeps it so. */
  lemma StepServes(s: Sys, e: Event)
    requires Inv(s) && Enabled(s, e) && Served(s.m) && !e.ChildLost?
    ensures s.m.base <= |s.m.log| && Served(Step(s, e).m)
  {
    hide Inv, PsyncStep, SaveStep, SaveEndsStep, AskStep, WriteStep, Open, Close, SendFileDone, RoundStep, OnPsync, SaveDone, Apply, ViewOf,
      OrdersOf, ForkOf;
    InvGap(s);
    GapBase(s.m);
    match e
    case Psync(fd, replid, offset, fork) =>
      PsyncIsOnPsync(s, fd, replid, offset, fork);
      PsyncServes(s.m, fd, replid, offset, ForkOf(s, fork));
    case SlaveAsks(fork) =>
      var known := s.sl.haveOffset && s.sl.replid != [];
      AsksIsPsync(s, fork);
      PsyncServes(s.m, s.link.value.fd, if known then s.sl.replid else [63], if known then s.sl.offset else -1, ForkOf(s, fork));
    case Save(fork) =>
      SaveIs(s, fork);
      OthersServe(s.m, 0, [], {}, true, ForkOf(s, fork));
    case SaveEnds(ok, fates, fork) =>
      EndIs(s, ok, fates, fork);
      SaveDoneServes(s.m, ok, fates, ForkOf(s, fork));
    case _ => PlainSaves(s, e);
  }

  lemma EndIs(s: Sys, ok: bool, fates: map<Fd, Fate>, fork: Option<Orders>)
    requires ForkFits(s, fork) && s.m.child.Saving?
    ensures SaveEndsStep(s, ok, fates, fork).m == SaveDone(s.m, ok, fates, ForkOf(s, fork))
  {
    hide StartFullsync, OrdersOf, ForkOf, DropWaiters, SendToWaiters;
    if !(s.m.saveStarted && s.m.child.fullsync) {
      var r := s.(m := s.m.(child := Idle, saveStarted := false));
      Replication.StartedMaster(r, fork);
      SameForkOf(s, r, fork);
    }
  }

  /** In every run, from a served state on, waiters are served as long as no child is lost. */
  lemma {:induction false} ServedKept(ss: seq<Sys>, es: seq<Event>, i: nat, j: nat)
    requires IsRun(ss, es) && i <= j < |ss| && Served(ss[i].m)
    requires forall p | i <= p < j :: !es[p].ChildLost?
    ensures Served(ss[j].m)
  {
    hide Enabled, Step, Inv, Initial, Served;
    if i < j {
      ServedKept(ss, es, i, j - 1);
      RunKeeps(ss, es, j - 1);
      assert Follows(ss[j - 1], es[j - 1], ss[j]);
      StepServes(ss[j - 1], es[j - 1]);
    }
  }

  lemma NoneStranded(ss: seq<Sys>, es: seq<Event>, j: nat)
    requires IsRun(ss, es) && j < |ss| && forall p | 0 <= p < j :: !es[p].ChildLost?
    ensures Served(ss[j].m)
  {
    assert Waiters(ss[0].m) == {};
    ServedKept(ss, es, 0, j);
  }

  // ---- after a child is lost ----------------------------------------------------------------------------------------------

  /** A fullsync save is believed to be running and is not. */
  predicate Blocked(m: Master) { m.saveStarted && !(m.child.Saving? && m.child.fullsync) }

  /** Replicas wait, and no save is running nor believed to be. */
  predicate Loose(m: Master) { !m.saveStarted && m.child == Idle && Waiters(m) != {} }

  /** Losing a child blocks the cycle if it was a fullsync's, leaves the waiters of an ordinary save
      loose, and otherwise strands nobody. */
  lemma LostChild(s: Sys)
    requires Inv(s) && s.m.child.Saving? && Served(s.m)
    ensures var n := LoseChild(s.m);
            && (Blocked(n) <==> s.m.child.fullsync) && (Loose(n) <==> !s.m.child.fullsync && Waiters(s.m) != {})
            && (Served(n) <==> !Blocked(n) && !Loose(n))
  {
    hide GapFree, LogInv, LinkInv, SlaveInv, HeadOk;
    assert Waiters(LoseChild(s.m)) == Waiters(s.m);
  }

  lemma BlockedAsk(s: Sys, fork: Option<Orders>)
    requires s.m.base <= |s.m.log| && Enabled(s, SlaveAsks(fork)) && Blocked(s.m)
    ensures var t := Step(s, SlaveAsks(fork)).m; Blocked(t) && t.child == s.m.child
  {
    hide Step, OnPsync, ForkOf, Blocked;
    var known := s.sl.haveOffset && s.sl.replid != [];
    AsksIsPsync(s, fork);
    BlockedPsync(s.m, s.link.value.fd, if known then s.sl.replid else [63], if known then s.sl.offset else -1, ForkOf(s, fork));
  }

  lemma BlockedSave(s: Sys, fork: Option<Orders>)
    requires s.m.base <= |s.m.log| && Enabled(s, Save(fork)) && Blocked(s.m)
    ensures var t := Step(s, Save(fork)).m; Blocked(t) && (s.m.child == Idle && fork.None? ==> t.child == Idle)
  {
    hide SaveStep, OrdersOf, Blocked, SaveCommand, Image;
    SaveIs(s, fork);
    BlockedSaveCommand(s.m, ForkOf(s, fork));
  }

  lemma BlockedSaveCommand(m: Master, fork: Fork)
    requires Blocked(m)
    ensures var n := SaveCommand(m, fork); Blocked(n) && (m.child == Idle && fork.ForkFailed? ==> n.child == Idle)
  {}

  lemma EndServes(s: Sys, ok: bool, fates: map<Fd, Fate>, fork: Option<Orders>)
    requires s.m.base <= |s.m.log| && Enabled(s, SaveEnds(ok, fates, fork))
    ensures Served(Step(s, SaveEnds(ok, fates, fork)).m)
  {
    hide SaveEndsStep, SaveDone, OrdersOf, Served;
    EndIs(s, ok, fates, fork);
    SaveDoneServes(s.m, ok, fates, ForkOf(s, fork));
  }

  lemma BlockedUnserved(m: Master)
    requires Blocked(m)
    ensures !Served(m)
  {}

  /** A blocked cycle is freed by the end of a save and by nothing else: not by a write, a request, a
      reconnect or the start of a save. */
  lemma BlockedStep(s: Sys, e: Event)
    requires Inv(s) && Enabled(s, e) && Blocked(s.m)
    ensures s.m.base <= |s.m.log|
    ensures Served(Step(s, e).m) <==> e.SaveEnds?
    ensures !e.SaveEnds? ==> Blocked(Step(s, e).m)
    ensures !e.SaveEnds? && s.m.child == Idle && !(e.Save? && e.fork.Some?) ==> Step(s, e).m.child == Idle
  {
    hide Inv, Step, Served, Waiters;
    InvGap(s);
    GapBase(s.m);
    match e {
      case Psync(fd, replid, offset, fork) => BlockedAsked(s, fd, replid, offset, fork);
      case SlaveAsks(fork) => BlockedAsk(s, fork);
      case Save(fork) => BlockedSave(s, fork);
      case SaveEnds(ok, fates, fork) => EndServes(s, ok, fates, fork);
      case ChildLost => BlockedLoss(s);
      case _ => PlainSaves(s, e);
    }
    if !e.SaveEnds? {
      BlockedUnserved(Step(s, e).m);
    }
  }

  lemma BlockedAsked(s: Sys, fd: Fd, replid: Bytes, offset: int, fork: Option<Orders>)
    requires s.m.base <= |s.m.log| && Enabled(s, Psync(fd, replid, offset, fork)) && Blocked(s.m)
    ensures var t := Step(s, Psync(fd, replid, offset, fork)).m; Blocked(t) && t.child == s.m.child
  {
    hide PsyncStep, OnPsync, ForkOf, Blocked, OrdersOf;
    PsyncIsOnPsync(s, fd, replid, offset, fork);
    BlockedPsync(s.m, fd, replid, offset, ForkOf(s, fork));
  }

  lemma BlockedLoss(s: Sys)
    requires s.m.base <= |s.m.log| && Enabled(s, ChildLost) && Blocked(s.m)
    ensures var t := Step(s, ChildLost).m; Blocked(t) && t.child == Idle
  {}

  lemma BlockedPsync(m: Master, fd: Fd, replid: Bytes, offset: int, fork: Fork)
    requires Blocked(m)
    ensures var n := OnPsync(m, fd, replid, offset, fork); Blocked(n) && n.child == m.child
  {
    hide OnPsync;
    if fd in m.conns {
      PsyncSaves(m, fd, replid, offset, fork);
    } else {
      NoConn(m, fd, replid, offset, fork);
    }
  }

  lemma NoConn(m: Master, fd: Fd, replid: Bytes, offset: int, fork: Fork)
    requires fd !in m.conns
    ensures OnPsync(m, fd, replid, offset, fork) == m
  {}

  /** Over every run: from a blocked state on, if no further child is lost, waiters are served again if and only
      if some save has ended in between; and then an ordinary save was started after the loss. */
  lemma {:induction false} BlockedUntilSaved(ss: seq<Sys>, es: seq<Event>, i: nat, j: nat)
    requires IsRun(ss, es) && i <= j < |ss| && Blocked(ss[i].m) && ss[i].m.child == Idle
    requires forall p | i <= p < j :: !es[p].ChildLost?
    ensures Served(ss[j].m) <==> exists p :: i <= p < j && es[p].SaveEnds?
    ensures !Served(ss[j].m) ==> Blocked(ss[j].m)
    ensures Served(ss[j].m) || ss[j].m.child.Saving? ==> exists p :: i <= p < j && es[p].Save? && es[p].fork.Some?
  {
    hide Enabled, Step, Inv, Initial, Served, Blocked;
    if i == j {
      BlockedNotServed(ss[i].m);
    } else {
      BlockedUntilSaved(ss, es, i, j - 1);
      RunKeeps(ss, es, j - 1);
      assert Follows(ss[j - 1], es[j - 1], ss[j]);
      if Served(ss[j - 1].m) {
        StepServes(ss[j - 1], es[j - 1]);
      } else {
        BlockedStep(ss[j - 1], es[j - 1]);
        SavingAtEnd(ss[j - 1], es[j - 1]);
      }
    }
  }

  lemma BlockedNotServed(m: Master)
    requires Blocked(m)
    ensures !Served(m)
  {}

  lemma SavingAtEnd(s: Sys, e: Event)
    requires Enabled(s, e)
    ensures e.SaveEnds? ==> s.m.child.Saving?
  {
    hide Apply, ViewOf, OrdersOf;
  }

  /** Until then a waiter that does not ask again goes on waiting in silence, or is gone. */
  lemma WaiterStep(s: Sys, e: Event, fd: Fd)
    requires Inv(s) && Enabled(s, e) && Blocked(s.m) && !e.SaveEnds? && !AsksOn(s, e, fd)
    requires fd in s.m.slaves ==> s.m.slaves[fd].stage == WaitRdb
    ensures s.m.base <= |s.m.log|
    ensures var m := Step(s, e).m; fd in m.slaves ==> m.slaves[fd].stage == WaitRdb
  {
    hide Inv, PsyncStep, SaveStep, AskStep, OnPsync, RoundStep, Apply, ViewOf, OrdersOf, GapFree, AnyActive;
    InvGap(s);
    GapBase(s.m);
    match e
    case Psync(x, replid, offset, fork) =>
      PsyncIsOnPsync(s, x, replid, offset, fork);
      OthersStage(s.m, x, replid, offset, ForkOf(s, fork), fd);
    case SlaveAsks(fork) =>
      var known := s.sl.haveOffset && s.sl.replid != [];
      AsksIsPsync(s, fork);
      OthersStage(s.m, s.link.value.fd, if known then s.sl.replid else [63], if known then s.sl.offset else -1, ForkOf(s, fork), fd);
    case Save(fork) => SaveIs(s, fork);
    case SlaveRound(hint) => RoundMaster(s, hint);
    case _ =>
  }

  lemma OthersStage(m: Master, x: Fd, replid: Bytes, offset: int, fork: Fork, fd: Fd)
    requires m.saveStarted && x != fd
    ensures var n := OnPsync(m, x, replid, offset, fork);
            fd in n.slaves ==> fd in m.slaves && n.slaves[fd].stage == m.slaves[fd].stage
  {
    hide AnyActive;
  }

  lemma {:induction false} WaitsUntilSaved(ss: seq<Sys>, es: seq<Event>, i: nat, j: nat, fd: Fd)
    requires IsRun(ss, es) && i <= j < |ss| && Blocked(ss[i].m) && fd in Waiters(ss[i].m)
    requires forall p | i <= p < j :: !es[p].SaveEnds? && !AsksOn(ss[p], es[p], fd)
    ensures Blocked(ss[j].m)
    ensures fd in ss[j].m.slaves ==> ss[j].m.slaves[fd].stage == WaitRdb && fd in ss[j].m.out && ss[j].m.out[fd] == SILENT
  {
    hide Enabled, Step, Inv, Initial, Blocked;
    RunKeeps(ss, es, j);
    if i < j {
      WaitsUntilSaved(ss, es, i, j - 1, fd);
      RunKeeps(ss, es, j - 1);
      assert Follows(ss[j - 1], es[j - 1], ss[j]);
      BlockedStep(ss[j - 1], es[j - 1]);
      WaiterStep(ss[j - 1], es[j - 1], fd);
    }
    WaiterSilent(ss[j], fd);
  }

  lemma WaiterSilent(s: Sys, fd: Fd)
    requires Inv(s)
    ensures fd in s.m.slaves && s.m.slaves[fd].stage == WaitRdb ==> fd in s.m.out && s.m.out[fd] == SILENT
  {
    hide LogInv, MasterInv, LinkInv, SlaveInv, ReplyOk;
    if fd in s.m.slaves && s.m.slaves[fd].stage == WaitRdb {
      assert PeerOk(s.m.slaves[fd], s.m.out[fd], s.m.log);
    }
  }

  /** The save that frees a blocked cycle forks a fullsync for everyone still waiting. */
  lemma Rescue(s: Sys, ok: bool, fates: map<Fd, Fate>, o: Orders)
    requires Blocked(s.m) && s.m.child.Saving? && OrdersOf(o, s.db) && Waiters(s.m) != {}
    ensures var t := SaveEndsStep(s, ok, fates, Some(o));
            && Waiters(t.m) == Waiters(s.m) && t.waited == Waiters(s.m) && t.child == Snap(s.db, o, Now(s))
            && t.m.saveStarted && t.m.child.Saving? && t.m.child.fullsync
  {
    hide OrdersOf, Image;
    var r := s.(m := s.m.(child := Idle, saveStarted := false));
    assert Waiters(r.m) == Waiters(s.m);
    AlignWaiters(r.m);
  }

  lemma LooseAsk(s: Sys, fork: Option<Orders>)
    requires s.m.base <= |s.m.log| && Enabled(s, SlaveAsks(fork)) && Loose(s.m)
    ensures var t := Step(s, SlaveAsks(fork)).m; Served(t) <==> Resyncs(s, SlaveAsks(fork)) || Waiters(t) == {}
  {
    hide Step, OnPsync, ForkOf, Loose, Served, Waiters, Continues;
    var known := s.sl.haveOffset && s.sl.replid != [];
    AsksIsPsync(s, fork);
    LoosePsync(s.m, s.link.value.fd, if known then s.sl.replid else [63], if known then s.sl.offset else -1, ForkOf(s, fork));
  }

  /** Loose waiters are served by the next request for a full resync on any connection or by the start of any
      save, and by nothing else, short of their all going away. */
  lemma LooseAsked(s: Sys, fd: Fd, replid: Bytes, offset: int, fork: Option<Orders>)
    requires s.m.base <= |s.m.log| && Enabled(s, Psync(fd, replid, offset, fork)) && Loose(s.m)
    ensures var t := Step(s, Psync(fd, replid, offset, fork)).m;
            Served(t) <==> Resyncs(s, Psync(fd, replid, offset, fork)) || Waiters(t) == {}
  {
    hide PsyncStep, OnPsync, ForkOf, Loose, OrdersOf, Served, Waiters, Continues;
    PsyncIsOnPsync(s, fd, replid, offset, fork);
    LoosePsync(s.m, fd, replid, offset, ForkOf(s, fork));
  }

  lemma LooseSave(s: Sys, fork: Option<Orders>)
    requires s.m.base <= |s.m.log| && Enabled(s, Save(fork)) && Loose(s.m)
    ensures var t := Step(s, Save(fork)).m; Served(t) <==> fork.Some? || Waiters(t) == {}
  {
    hide SaveStep, OrdersOf, Image, Waiters;
    SaveIs(s, fork);
    SameWaiters(s.m, Step(s, Save(fork)).m);
  }

  lemma LooseElse(m: Master, n: Master)
    requires Loose(m) && SameSave(m, n)
    ensures Served(n) <==> Waiters(n) == {}
  {}

  lemma LooseStep(s: Sys, e: Event)
    requires Inv(s) && Enabled(s, e) && Loose(s.m)
    ensures s.m.base <= |s.m.log|
    ensures var t := Step(s, e).m;
            Served(t) <==> Resyncs(s, e) || (e.Save? && e.fork.Some?) || Waiters(t) == {}
  {
    hide Inv, Step, Served, Waiters, Continues;
    InvGap(s);
    GapBase(s.m);
    match e
    case Psync(fd, replid, offset, fork) => LooseAsked(s, fd, replid, offset, fork);
    case SlaveAsks(fork) => LooseAsk(s, fork);
    case Save(fork) => LooseSave(s, fork);
    case SaveEnds(_, _, _) =>
    case ChildLost =>
    case _ =>
      PlainSaves(s, e);
      LooseElse(s.m, Step(s, e).m);
  }

  lemma SameWaiters(m: Master, n: Master)
    requires n.slaves == m.slaves
    ensures Waiters(n) == Waiters(m)
  {}

  lemma LoosePsync(m: Master, fd: Fd, replid: Bytes, offset: int, fork: Fork)
    requires Loose(m)
    ensures var n := OnPsync(m, fd, replid, offset, fork);
            Served(n) <==> (fd in m.conns && !Continues(m, fd, replid, offset)) || Waiters(n) == {}
  {
    hide OnPsync, Continues, Waiters;
    if fd in m.conns {
      PsyncSaves(m, fd, replid, offset, fork);
    } else {
      NoConn(m, fd, replid, offset, fork);
    }
  }
}
