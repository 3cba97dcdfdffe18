/** Every step of the replication system keeps its invariant. */
module ReplicationInvariants {
  import opened ByteStrings
  import opened Commands
  import opened Views
  import opened VNodeStorages
  import opened VNodeIndexes
  import opened Databases
  import opened Frames
  import opened Snapshots
  import opened ReplicationSlaves
  import opened ReplicationMasters
  import opened Replication
  import opened ReplicationParser

  // ---- offsets are frame boundaries -----------------------------------------------------------------------------

  lemma OffAll(fed: seq<Cmd>)
    ensures Off(fed, |fed|) == |EncodeAll(fed)|
  {
    assert fed[..|fed|] == fed;
  }

  lemma OffSnoc(fed: seq<Cmd>, c: Cmd, k: nat)
    requires k <= |fed|
    ensures Off(fed + [c], k) == Off(fed, k)
  {
    assert (fed + [c])[..k] == fed[..k];
  }

  lemma OffRest(fed: seq<Cmd>, k: nat)
    requires k <= |fed|
    ensures Off(fed, k) <= |EncodeAll(fed)| && EncodeAll(fed)[Off(fed, k)..] == EncodeAll(fed[k..])
  {
    hide EncodeAll;
    EncodeAllSplit(fed, k);
  }

  lemma OffPlus(fed: seq<Cmd>, k: nat, j: nat)
    requires k + j <= |fed|
    ensures Off(fed, k + j) == Off(fed, k) + |EncodeAll(fed[k..][..j])|
  {
    hide EncodeAll;
    assert fed[..k + j] == fed[..k] + fed[k..][..j];
    EncodeAllConcat(fed[..k], fed[k..][..j]);
  }

  lemma Longer(cs: seq<Cmd>, i: nat, j: nat)
    requires i < j <= |cs|
    ensures |EncodeAll(cs[..i])| < |EncodeAll(cs[..j])|
  {
    hide Encode;
    var p := cs[..j];
    assert p[..i] == cs[..i];
    EncodeAllSplit(p, i);
    var q := p[i..];
    assert q != [];
  }

  lemma WholeFramesExact(cs: seq<Cmd>, j: nat)
    requires j <= |cs|
    ensures WholeFrames(cs, |EncodeAll(cs[..j])|) == j
  {
    hide EncodeAll;
    var n := |EncodeAll(cs[..j])|;
    var k := WholeFrames(cs, n);
    if k < j {
      if k + 1 < j {
        Longer(cs, k + 1, j);
      }
    } else if k > j {
      Longer(cs, j, k);
    }
  }

  // ---- moments, snapshots and starts survive the master's steps ------------------------------------------------------------

  /** The same feed, or one command more. */
  ghost predicate Feeds(s: Sys, t: Sys) {
    && t.epoch == s.epoch && t.from == s.from && t.since == s.since && s.since <= |s.fed|
    && (t.fed == s.fed || exists c :: t.fed == s.fed + [c])
  }

  /** A write that was not fed. */
  ghost predicate Escapes(s: Sys, t: Sys) {
    t.epoch == s.epoch + 1 && t.fed == s.fed
  }

  ghost predicate Later(s: Sys, t: Sys) { Feeds(s, t) || Escapes(s, t) }

  lemma MarkLater(s: Sys, t: Sys, mk: Mark)
    requires Later(s, t) && MarkOk(s, mk)
    ensures MarkOk(t, mk) && Off(t.fed, mk.k) == Off(s.fed, mk.k)
  {
    if Feeds(s, t) && t.fed != s.fed {
      var c :| t.fed == s.fed + [c];
      OffSnoc(s.fed, c, mk.k);
    }
  }

  lemma SnapLater(s: Sys, t: Sys, sn: Snap)
    requires Later(s, t) && SnapOk(s, sn)
    ensures SnapOk(t, sn)
  {
    hide OrdersOf, Coherent, ViewOf;
    MarkLater(s, t, sn.mark);
    if sn.mark.epoch == t.epoch {
      assert t.fed[t.since..sn.mark.k] == s.fed[s.since..sn.mark.k];
    }
  }

  lemma BoundaryLater(s: Sys, t: Sys, o: nat)
    requires Later(s, t) && Boundary(s.fed, o)
    ensures Boundary(t.fed, o)
  {
    var k: nat :| k <= |s.fed| && Off(s.fed, k) == o;
    if Feeds(s, t) && t.fed != s.fed {
      var c :| t.fed == s.fed + [c];
      OffSnoc(s.fed, c, k);
    }
    assert k <= |t.fed| && Off(t.fed, k) == o;
  }

  lemma HeadLater(s: Sys, t: Sys, fd: Fd, h: Head)
    requires Later(s, t) && HeadOk(s, fd, h)
    requires fd in s.marks ==> fd in t.marks && t.marks[fd] == s.marks[fd]
    requires fd in s.sent ==> fd in t.sent && t.sent[fd] == s.sent[fd]
    ensures HeadOk(t, fd, h)
  {
    hide SnapOk, MarkOk, Boundary, Image;
    if h.FullHead? || h.BrokenHead? {
      MarkLater(s, t, s.marks[fd]);
    }
    if h.FullHead? {
      SnapLater(s, t, s.sent[fd].snap);
      if h.backlog.Some? {
        BoundaryLater(s, t, h.offset + h.backlog.value);
      }
    }
  }

  // ---- the parser's position survives growth of the reply ---------------------------------------------------------------------

  /** How a reply may change while its connection is being read. */
  ghost predicate Grown(r: Reply, q: Reply) {
    || q == r
    || (r == SILENT && !q.head.ContinueHead? && q.data == [])
    || (r.head.FullHead? && r.head.backlog.None? && r.data == [] && r.err == []
        && (q == r.(err := q.err)
            || (q.head.FullHead? && q.head.backlog.Some? && q == r.(head := r.head.(backlog := q.head.backlog), data := q.data))))
    || ((r.head.ContinueHead? || (r.head.FullHead? && r.head.backlog.Some?)) && r.err == []
        && r.data <= q.data && q == r.(data := q.data))
  }

  lemma BytesGrown(r: Reply, q: Reply, replid: Bytes)
    requires Grown(r, q)
    ensures ReplyBytes(replid, r) <= ReplyBytes(replid, q)
  {
    hide FullLine, LengthLine;
  }

  lemma PosGrown(sl: Slave, r: Reply, q: Reply, replid: Bytes, got: nat)
    requires Grown(r, q) && got <= |ReplyBytes(replid, r)|
    requires Pos(sl, r, replid, ReplyBytes(replid, r)[got..])
    ensures got <= |ReplyBytes(replid, q)| && Pos(sl, q, replid, ReplyBytes(replid, q)[got..])
  {
    hide FullLine, LengthLine, FileOf;
    BytesGrown(r, q, replid);
    var a, b := ReplyBytes(replid, r), ReplyBytes(replid, q);
    var x := b[|a|..];
    assert b == a + x && b[got..] == a[got..] + x;
    if q != r && r != SILENT {
      if r.head.FullHead? && r.head.backlog.None? {
        TailGrown(r, q, replid, x);
      } else {
        DataGrown(r, q, replid, x);
      }
      PosExtends(sl, r, q, replid, a[got..], x);
    }
  }

  lemma TailGrown(r: Reply, q: Reply, replid: Bytes, x: Bytes)
    requires Grown(r, q) && q != r && r.head.FullHead? && r.head.backlog.None?
    requires ReplyBytes(replid, q) == ReplyBytes(replid, r) + x
    ensures Tail(r) == [] && Tail(q) == x
  {
    hide ReplyBytes;
    SnapshotThenTail(r, replid);
    SnapshotThenTail(q, replid);
    var h := Announced(replid, r.head);
    assert h + Tail(q) == h + x;
    assert (h + Tail(q))[|h|..] == Tail(q) && (h + x)[|h|..] == x;
  }

  /** The announcement of a full resync and its snapshot. */
  function Announced(replid: Bytes, h: Head): Bytes
    requires h.FullHead?
  {
    FullLine(replid, h.offset) + LengthLine(|h.image|) + h.image
  }

  lemma SnapshotThenTail(r: Reply, replid: Bytes)
    requires r.head.FullHead? && (if r.head.backlog.None? then r.data == [] else r.err == [])
    ensures ReplyBytes(replid, r) == Announced(replid, r.head) + Tail(r)
  {
    hide FullLine, LengthLine;
    var h := Announced(replid, r.head);
    if r.head.backlog.Some? {
      assert h + LengthLine(r.head.backlog.value) + r.data + [] == h + (LengthLine(r.head.backlog.value) + r.data);
    } else {
      assert h + [] + [] + r.err == h + r.err;
    }
  }

  /** A head whose data may still grow. */
  predicate Growing(h: Head) { h.ContinueHead? || (h.FullHead? && h.backlog.Some?) }

  lemma OnlyData(r: Reply, q: Reply)
    requires Grown(r, q) && q != r && Growing(r.head)
    ensures r.err == [] && q == r.(data := q.data)
  {}

  lemma Cancels(h: Bytes, a: Bytes, b: Bytes)
    requires h + a == h + b
    ensures a == b
  {
    assert (h + a)[|h|..] == a && (h + b)[|h|..] == b;
  }

  lemma TailGrows(r: Reply, q: Reply, x: Bytes)
    requires q == r.(data := r.data + x) && r.head.FullHead? && r.head.backlog.Some?
    ensures Tail(q) == Tail(r) + x
  {
    hide LengthLine;
    var line := LengthLine(r.head.backlog.value);
    assert line + (r.data + x) == line + r.data + x;
  }

  lemma DataGrown(r: Reply, q: Reply, replid: Bytes, x: Bytes)
    requires Grown(r, q) && q != r && Growing(r.head)
    requires ReplyBytes(replid, q) == ReplyBytes(replid, r) + x
    ensures q.data == r.data + x && (r.head.FullHead? ==> Tail(q) == Tail(r) + x)
  {
    hide HeadBytes, Grown, Tail;
    OnlyData(r, q);
    var h := HeadBytes(replid, r.head);
    assert h + r.data + [] + x == h + (r.data + x) && h + q.data + [] == h + q.data;
    Cancels(h, q.data, r.data + x);
    if r.head.FullHead? {
      TailGrows(r, q, x);
    }
  }

  lemma PosExtends(sl: Slave, r: Reply, q: Reply, replid: Bytes, rest: Bytes, x: Bytes)
    requires Pos(sl, r, replid, rest) && q.head.FullHead? == r.head.FullHead? && q.head.BrokenHead? == r.head.BrokenHead?
    requires q.head.ContinueHead? == r.head.ContinueHead? && !r.head.BrokenHead? && !r.head.NoHead?
    requires q.head.offset == r.head.offset && (r.head.FullHead? ==> q.head.image == r.head.image && Tail(q) == Tail(r) + x)
    requires ReplyBytes(replid, q) == ReplyBytes(replid, r) + x
    requires r.head.ContinueHead? || r.head.backlog.Some? ==> q.data == r.data + x
    requires r.head.FullHead? && r.head.backlog.Some? ==> q.head.backlog == r.head.backlog
    ensures Pos(sl, q, replid, rest + x)
  {
    hide FullLine, LengthLine, FileOf, Tail, ReplyBytes;
    match sl.state
    case WaitFullresync => assert sl.input + (rest + x) == (sl.input + rest) + x;
    case RecvRdbHeader => assert sl.input + (rest + x) == (sl.input + rest) + x;
    case RecvRdbBody => assert FileOf(sl) + sl.input + (rest + x) == (FileOf(sl) + sl.input + rest) + x;
    case RecvBacklogHeader => assert sl.input + (rest + x) == (sl.input + rest) + x;
    case RecvBacklogBody => assert sl.backlog + sl.input + (rest + x) == (sl.backlog + sl.input + rest) + x;
    case Streaming =>
      var o := sl.offset - r.head.offset;
      assert (r.data + x)[o..] == r.data[o..] + x;
      assert sl.stream + sl.input + (rest + x) == (sl.stream + sl.input + rest) + x;
    case _ =>
  }

  // ---- what the master's operations do to one connection ------------------------------------------------------------------------

  /** A reply only grows, and a connection that is no replica is left alone. */
  ghost predicate Touches(m: Master, n: Master, fd: Fd) {
    && fd in m.out && fd in n.out && Grown(m.out[fd], n.out[fd])
    && (fd !in m.slaves ==> n.out[fd] == m.out[fd] && fd !in n.slaves)
  }

  lemma FeedTouches(m: Master, frame: Bytes, slow: set<Fd>, fd: Fd)
    requires GapFree(m) && fd in m.out
    ensures Touches(m, FeedFrame(m, frame, slow), fd)
  {
    hide RunAt;
  }

  lemma StartTouches(m: Master, fork: Fork, fd: Fd)
    requires GapFree(m) && fd in m.out
    ensures Touches(m, StartFullsync(m, fork), fd)
  {
    hide RunAt;
  }

  lemma SendTouches(m: Master, image: Bytes, fates: map<Fd, Fate>, fd: Fd)
    requires GapFree(m) && fd in m.out
    ensures Touches(m, SendToWaiters(m, image, fates), fd)
  {
    hide RunAt;
  }

  lemma DropTouches(m: Master, fd: Fd)
    requires GapFree(m) && fd in m.out
    ensures Touches(m, DropWaiters(m), fd)
  {
    hide RunAt;
  }

  lemma FileSentTouches(m: Master, fd: Fd, ok: bool, x: Fd)
    requires GapFree(m) && x in m.out
    ensures Touches(m, SendFileDone(m, fd, ok), x)
  {
    hide RunAt;
  }

  // ---- the replica's side of a master step ----------------------------------------------------------------------------------------

  /** The replica and what is remembered about it are untouched. */
  ghost predicate SameSlave(s: Sys, t: Sys) {
    t.sl == s.sl && t.link == s.link && t.at == s.at && t.loaded == s.loaded && t.m.replid == s.m.replid
  }

  /** What clients see moves with the feed. */
  ghost predicate ViewMoves(s: Sys, t: Sys) {
    && (t.epoch == s.epoch && t.fed == s.fed ==> ViewOf(t.db) == ViewOf(s.db))
    && (forall c :: t.epoch == s.epoch && t.fed == s.fed + [c] ==> ViewOf(t.db) == Effect(ViewOf(s.db), c))
  }

  lemma SlaveLater(s: Sys, t: Sys)
    requires SlaveInv(s) && Later(s, t) && SameSlave(s, t) && ViewMoves(s, t)
    ensures SlaveInv(t)
  {
    hide ViewOf, Coherent, LoadedOk;
    if Ours(s) {
      MarkLater(s, t, s.at);
    }
    if s.loaded.Some? {
      LoadedLater(s, t, s.loaded.value);
    }
  }

  lemma LoadedLater(s: Sys, t: Sys, l: Loaded)
    requires LoadedOk(s, l) && Later(s, t) && SameSlave(s, t) && s.at.k <= |s.fed|
    ensures LoadedOk(t, l)
  {
    hide ViewOf, Coherent, SnapOk;
    SnapLater(s, t, l.snap);
    MarkLater(s, t, l.start);
    if t.fed != s.fed {
      var c :| t.fed == s.fed + [c];
      assert t.fed[s.at.k..] == s.fed[s.at.k..] + [c] && t.fed[l.start.k..] == s.fed[l.start.k..] + [c];
      EffectsSnoc(ViewOf(s.sl.db), s.fed[s.at.k..], c);
      EffectsSnoc(ViewOf(l.snap.db), s.fed[l.start.k..], c);
    }
  }

  /** The connection of the followed replica is one the step may touch, if its PSYNC was served. */
  ghost predicate LinkTouched(s: Sys, t: Sys) {
    s.link.Some? ==>
      var l := s.link.value;
      && l.fd in s.m.out && l.fd in t.m.out && Grown(s.m.out[l.fd], t.m.out[l.fd])
      && (!l.asked ==> t.m.out[l.fd] == s.m.out[l.fd] && l.fd !in t.m.slaves)
      && (l.fd in s.marks && s.m.out[l.fd] != SILENT ==> l.fd in t.marks && t.marks[l.fd] == s.marks[l.fd])
  }

  lemma LinkLater(s: Sys, t: Sys)
    requires LinkInv(s) && SameSlave(s, t) && LinkTouched(s, t)
    ensures LinkInv(t)
  {
    hide FullLine, LengthLine, Grown;
    if s.link.Some? {
      var l := s.link.value;
      assert AtStart(t, l.fd) by {
        hide ReplyBytes;
      }
      PosGrown(s.sl, s.m.out[l.fd], t.m.out[l.fd], s.m.replid, l.got);
    }
  }

  lemma TouchedLink(s: Sys, t: Sys)
    requires LinkInv(s) && (s.link.Some? ==> Touches(s.m, t.m, s.link.value.fd))
    requires s.link.Some? && s.link.value.fd in s.marks && s.m.out[s.link.value.fd] != SILENT ==>
               s.link.value.fd in t.marks && t.marks[s.link.value.fd] == s.marks[s.link.value.fd]
    ensures LinkTouched(s, t)
  {
    hide Pos, ReplyBytes, AtStart, Grown;
  }

  // ---- writes -----------------------------------------------------------------------------------------------------------------------

  lemma DoneHasKey(db: Db, c: Cmd)
    requires Apply(db, c).done
    ensures HasKey(c) && Apply(db, c).ok
  {}

  lemma FedLog(s: Sys, c: Cmd, slow: set<Fd>)
    requires LogInv(s) && GapFree(s.m) && Apply(s.db, c).done && s.m.slaves != map[]
    ensures LogInv(WriteStep(s, c, true, slow)) && Feeds(s, WriteStep(s, c, true, slow))
    ensures ViewMoves(s, WriteStep(s, c, true, slow))
  {
    hide ViewOf, Coherent, Apply, FeedFrame, GapFree, Encode, EncodeAll, Effects;
    ApplyShows(s.db, c);
    DoneHasKey(s.db, c);
    GapBase(s.m);
    FeedKeepsRest(s.m, Encode(c), slow);
    EncodeAllSnoc(s.fed, c);
    var t := WriteStep(s, c, true, slow);
    assert t.fed[s.since..] == s.fed[s.since..] + [c];
    EffectsSnoc(s.from, s.fed[s.since..], c);
    forall d | t.fed == s.fed + [d] ensures d == c {
      assert (s.fed + [d])[|s.fed|] == d;
    }
  }

  lemma FeedKeepsRest(m: Master, frame: Bytes, slow: set<Fd>)
    requires m.base <= |m.log|
    ensures var n := FeedFrame(m, frame, slow);
            && n.log == m.log + frame && n.replid == m.replid && n.child == m.child && n.saveStarted == m.saveStarted
            && n.activeStart == m.activeStart && (n.active ==> m.active)
            && (forall fd | fd in Waiters(n) :: fd in Waiters(m) && n.slaves[fd] == m.slaves[fd])
            && (forall fd | fd in n.out :: fd in m.out && n.out[fd].head == m.out[fd].head)
  {}

  /** The master's bookkeeping after a step that registers nobody and sends no first reply. */
  lemma MasterLater(s: Sys, t: Sys)
    requires MasterInv(s) && Later(s, t)
    requires t.marks == s.marks && t.sent == s.sent && t.activeMark == s.activeMark && t.child == s.child && t.waited == s.waited
    requires t.m.activeStart == s.m.activeStart && (t.m.active ==> s.m.active)
    requires t.m.child == s.m.child && t.m.saveStarted == s.m.saveStarted
    requires forall fd | fd in Waiters(t.m) :: fd in Waiters(s.m) && t.m.slaves[fd] == s.m.slaves[fd]
    requires forall fd | fd in t.m.out :: fd in s.m.out && t.m.out[fd].head == s.m.out[fd].head
    ensures MasterInv(t)
  {
    hide SnapOk, MarkOk, HeadOk, Image;
    if t.m.active {
      MarkLater(s, t, s.activeMark);
    }
    forall fd | fd in Waiters(t.m) ensures StartOk(t, fd, t.m.slaves[fd].start) {
      assert StartOk(s, fd, s.m.slaves[fd].start);
      MarkLater(s, t, s.marks[fd]);
    }
    if t.m.child.Saving? {
      SnapLater(s, t, s.child);
    }
    forall fd | fd in t.m.out ensures HeadOk(t, fd, t.m.out[fd].head) {
      HeadLater(s, t, fd, s.m.out[fd].head);
    }
  }

  lemma WriteKeeps(s: Sys, c: Cmd, appended: bool, slow: set<Fd>)
    requires Inv(s) && Apply(s.db, c).done
    ensures Inv(WriteStep(s, c, appended, slow))
  {
    hide LogInv, MasterInv, LinkInv, SlaveInv, GapFree, FeedFrame, Apply, Touches, Waiters;
    GapBase(s.m);
    var t := WriteStep(s, c, appended, slow);
    if appended && s.m.slaves != map[] {
      FedLog(s, c, slow);
      FeedGapFree(s.m, Encode(c), slow);
        FeedKeepsRest(s.m, Encode(c), slow);
      if s.link.Some? {
        LinkFd(s);
        FeedTouches(s.m, Encode(c), slow, s.link.value.fd);
      }
    } else {
      EscapedLog(s, c);
    }
    if s.link.Some? {
      LinkFd(s);
      SameTouches(s.m, s.link);
    }
    MasterLater(s, t);
    TouchedLink(s, t);
    LinkLater(s, t);
    SlaveLater(s, t);
  }

  lemma GapBase(m: Master)
    requires GapFree(m)
    ensures m.base <= |m.log|
  {}

  lemma LinkFd(s: Sys)
    requires LinkInv(s) && s.link.Some?
    ensures s.link.value.fd in s.m.out
  {}

  lemma SameTouches(m: Master, link: Option<Link>)
    ensures link.Some? && link.value.fd in m.out ==> Touches(m, m, link.value.fd)
  {}

  lemma EscapedLog(s: Sys, c: Cmd)
    requires LogInv(s) && Apply(s.db, c).done
    ensures var t := s.(db := Apply(s.db, c).db, epoch := s.epoch + 1, from := ViewOf(Apply(s.db, c).db), since := |s.fed|);
            LogInv(t) && Escapes(s, t)
  {
    hide ViewOf, Coherent, Apply;
    ApplyShows(s.db, c);
    assert s.fed[|s.fed|..] == [];
  }

  // ---- the fullsync cycle -------------------------------------------------------------------------------------------------------------

  lemma NowOk(s: Sys)
    requires LogInv(s)
    ensures MarkOk(s, Now(s)) && Off(s.fed, |s.fed|) == |s.m.log|
  {
    hide ViewOf, Coherent;
    OffAll(s.fed);
  }

  lemma SnapNow(s: Sys, o: Orders)
    requires LogInv(s) && OrdersOf(o, s.db)
    ensures SnapOk(s, Snap(s.db, o, Now(s)))
  {
    hide OrdersOf, Coherent, ViewOf;
    assert s.fed[s.since..|s.fed|] == s.fed[s.since..];
  }

  lemma StartKeepsRest(m: Master, fork: Fork)
    ensures var n := StartFullsync(m, fork);
            && n.log == m.log && n.replid == m.replid && n.base == m.base && n.conns == m.conns
            && (forall fd | fd in n.out :: fd in m.out && n.out[fd].head == m.out[fd].head)
            && (forall fd | fd in Waiters(n) :: fd in Waiters(m))
  {}

  /** Replies that are not silent belong to no waiter, so sharing the start leaves their moment alone. */
  lemma StartedMarks(s: Sys, fork: Option<Orders>, fd: Fd)
    requires GapFree(s.m) && ForkFits(s, fork) && fd in s.m.out && s.m.out[fd] != SILENT && fd in s.marks
    ensures fd in Started(s, fork).marks && Started(s, fork).marks[fd] == s.marks[fd]
  {
    hide RunAt, Image;
    assert fd !in Waiters(s.m);
  }

  lemma StartedHeads(s: Sys, fork: Option<Orders>, fd: Fd)
    requires GapFree(s.m) && MasterInv(s) && LogInv(s) && ForkFits(s, fork) && fd in Started(s, fork).m.out
    ensures HeadOk(Started(s, fork), fd, Started(s, fork).m.out[fd].head)
  {
    hide SnapOk, MarkOk, Image, StartFullsync, LogInv, Coherent, OrdersOf, PeerOk, ReplyOk, Boundary;
    var t := Started(s, fork);
    StartKeepsRest(s.m, ForkOf(s, fork));
    assert Feeds(s, t) by { LogSince(s); }
    if s.m.out[fd].head.NoHead? || s.m.out[fd].head.ContinueHead? {
    } else {
      StartedMarks(s, fork, fd);
      HeadLater(s, t, fd, s.m.out[fd].head);
    }
  }

  lemma LogSince(s: Sys)
    requires LogInv(s)
    ensures s.since <= |s.fed|
  {}

  lemma StartedMaster(s: Sys, fork: Option<Orders>)
    requires GapFree(s.m) && MasterInv(s) && LogInv(s) && ForkFits(s, fork)
    ensures MasterInv(Started(s, fork))
  {
    var t := Started(s, fork);
    forall fd | fd in t.m.out ensures HeadOk(t, fd, t.m.out[fd].head) {
      StartedHeads(s, fork, fd);
    }
    StartedCycle(s, fork);
  }

  lemma StartedCycle(s: Sys, fork: Option<Orders>)
    requires CycleOk(s) && LogInv(s) && ForkFits(s, fork)
    ensures CycleOk(Started(s, fork))
  {
    hide OrdersOf, Coherent, ViewOf, Effects, Image, LogInv, StartFullsync;
    if !s.m.saveStarted && Waiters(s.m) != {} {
      var t := Started(s, fork);
      StartedOut(s.m, ForkOf(s, fork));
      NowOk(s);
      SharedIsEarlier(s);
      if fork.Some? {
        SnapNow(s, fork.value);
        StartedSnap(s, t, Snap(s.db, fork.value, Now(s)));
      }
      StartedSnap(s, t, s.child);
    } else {
      assert Started(s, fork) == s by { StartedIdle(s.m, ForkOf(s, fork)); }
    }
  }

  lemma StartedIdle(m: Master, fork: Fork)
    requires m.saveStarted || Waiters(m) == {}
    ensures StartFullsync(m, fork) == m
  {}

  lemma StartedOut(m: Master, fork: Fork)
    requires !m.saveStarted && Waiters(m) != {}
    ensures var n := StartFullsync(m, fork);
            var start := if m.active then m.activeStart else |m.log|;
            && (n.active ==> n.activeStart == start) && n.log == m.log
            && (forall fd | fd in Waiters(n) :: fd in Waiters(m) && n.slaves[fd].start == start)
            && (m.child.Saving? ==> n.child == m.child && !n.saveStarted)
            && (!m.child.Saving? && fork.Forked? ==> n.child == Saving(true, fork.image) && n.saveStarted)
            && (!m.child.Saving? && fork.ForkFailed? ==> !n.child.Saving?)
  {
    AlignWaiters(m);
  }

  lemma AlignWaiters(m: Master)
    ensures Waiters(Align(m)) == Waiters(m) && Waiters(DropWaiters(Align(m))) == {}
    ensures forall fd | fd in Waiters(m) :: Align(m).slaves[fd].start == Align(m).activeStart
  {}

  lemma SharedIsEarlier(s: Sys)
    requires LogInv(s) && (s.m.active ==> MarkOk(s, s.activeMark))
    ensures s.m.active ==> NotAfter(s.activeMark, Now(s))
  {}

  lemma StartedSnap(s: Sys, t: Sys, sn: Snap)
    requires t.fed == s.fed && t.epoch == s.epoch && t.since == s.since && t.from == s.from
    ensures SnapOk(s, sn) <==> SnapOk(t, sn)
  {}

  lemma StartedRest(s: Sys, fork: Option<Orders>)
    requires ForkFits(s, fork)
    ensures var t := Started(s, fork);
            && t.m == StartFullsync(s.m, ForkOf(s, fork)) && SameSlave(s, t)
            && t.db == s.db && t.fed == s.fed && t.epoch == s.epoch && t.from == s.from && t.since == s.since
            && t.sent == s.sent
  {
    hide StartFullsync, ForkOf, Waiters;
    StartKeepsRest(s.m, ForkOf(s, fork));
  }

  lemma StartedKeeps(s: Sys, fork: Option<Orders>)
    requires Inv(s) && ForkFits(s, fork)
    ensures Inv(Started(s, fork))
  {
    hide LogInv, MasterInv, LinkInv, SlaveInv, GapFree, StartFullsync, Touches, Waiters, Started, ForkOf, ForkFits;
    var t := Started(s, fork);
    StartedRest(s, fork);
    StartGapFree(s.m, ForkOf(s, fork));
    StartKeepsRest(s.m, ForkOf(s, fork));
    StartedMaster(s, fork);
    LogSince(s);
    SameLog(s, t);
    if s.link.Some? {
      var fd := s.link.value.fd;
      LinkFd(s);
      StartTouches(s.m, ForkOf(s, fork), fd);
      if fd in s.marks && s.m.out[fd] != SILENT {
        StartedMarks(s, fork, fd);
      }
    }
    TouchedLink(s, t);
    LinkLater(s, t);
    SlaveLater(s, t);
  }

  lemma SameLog(s: Sys, t: Sys)
    requires LogInv(s) && t.m.log == s.m.log && t.m.replid == s.m.replid && t.fed == s.fed && t.db == s.db
    requires t.since == s.since && t.from == s.from && t.epoch == s.epoch
    ensures LogInv(t) && Feeds(s, t) && ViewMoves(s, t)
  {
    forall c ensures t.fed != s.fed + [c] {
      assert |t.fed| < |s.fed + [c]|;
    }
  }

  // ---- registration ------------------------------------------------------------------------------------------------------------------------

  /** fd is not the followed replica's connection, or that one has just asked and heard nothing yet. */
  ghost predicate MayAsk(s: Sys, fd: Fd) {
    s.link.Some? && s.link.value.fd == fd ==> s.link.value.asked && fd in s.m.out && s.m.out[fd] == SILENT
  }

  lemma RegisteredMaster(s: Sys, fd: Fd)
    requires GapFree(s.m) && LogInv(s) && MasterInv(s) && fd in s.m.conns
    ensures MasterInv(Registered(s, fd)) && GapFree(Registered(s, fd).m)
  {
    hide Image, SnapOk, RunAt, Coherent, ViewOf, PeerOk, ReplyOk;
    NowOk(s);
    WaiterOk(s.m.log);
    var a := RemoveSlave(s.m, fd);
    assert GapFree(a);
    RegisterGapFree(a, fd, Peer(WaitRdb, |s.m.log|), SILENT);
    RegisteredHeads(s, fd);
    RegisteredCycle(s, fd);
  }

  lemma RegisteredHeads(s: Sys, fd: Fd)
    requires GapFree(s.m) && LogInv(s) && MasterInv(s) && fd in s.m.conns
    ensures var t := Registered(s, fd); forall x | x in t.m.out :: HeadOk(t, x, t.m.out[x].head)
  {
    hide SnapOk, RunAt, MarkOk, Image;
    var t := Registered(s, fd);
    LogSince(s);
    forall x | x in t.m.out ensures HeadOk(t, x, t.m.out[x].head) {
      if x != fd {
        HeadLater(s, t.(marks := s.marks), x, s.m.out[x].head);
        MarksApart(t.(marks := s.marks), t, x, s.m.out[x].head);
      }
    }
  }

  lemma MarksApart(s: Sys, t: Sys, x: Fd, h: Head)
    requires HeadOk(s, x, h) && t == s.(marks := t.marks) && (x in s.marks ==> x in t.marks && t.marks[x] == s.marks[x])
    ensures HeadOk(t, x, h)
  {
    hide OrdersOf, Coherent, ViewOf, Effects, Image;
  }

  lemma SnapThere(s: Sys, t: Sys, sn: Snap)
    requires SnapOk(s, sn) && t.fed == s.fed && t.epoch == s.epoch && t.from == s.from && t.since == s.since
    ensures SnapOk(t, sn) && MarkOk(s, sn.mark)
  {}

  lemma WaitersIn(m: Master)
    ensures Waiters(m) <= m.slaves.Keys
  {}

  /** Who waits after the registration, and since when. */
  lemma RegisteredWaiters(s: Sys, fd: Fd, x: Fd)
    requires x in Waiters(Registered(s, fd).m)
    ensures var t := Registered(s, fd);
            && (x == fd ==> t.m.slaves[x].start == |s.m.log|)
            && (x != fd ==> x in Waiters(s.m) && t.m.slaves[x] == s.m.slaves[x])
  {}

  lemma RegisteredMark(s: Sys, fd: Fd, x: Fd)
    ensures var t := Registered(s, fd);
            && (x == fd ==> x in t.marks && t.marks[x] == Now(s) && x !in t.waited)
            && (x != fd ==> (x in t.marks <==> x in s.marks) && (x in s.marks ==> t.marks[x] == s.marks[x])
                            && (x in t.waited <==> x in s.waited))
  {}

  lemma RegisteredRest(s: Sys, fd: Fd)
    ensures var t := Registered(s, fd);
            && t.fed == s.fed && t.epoch == s.epoch && t.from == s.from && t.since == s.since && t.child == s.child
            && t.activeMark == s.activeMark && t.m.child == s.m.child && t.m.saveStarted == s.m.saveStarted
            && t.m.activeStart == s.m.activeStart && (t.m.active ==> s.m.active) && t.m.log == s.m.log
  {}

  lemma RegisteredCycle(s: Sys, fd: Fd)
    requires LogInv(s) && CycleOk(s) && fd in s.m.conns
    ensures CycleOk(Registered(s, fd))
  {
    hide OrdersOf, Coherent, ViewOf, Effects, Image, LogInv, SnapOk, Registered, Waiters, Off;
    NowOk(s);
    var t := Registered(s, fd);
    RegisteredRest(s, fd);
    assert Waiters(t.m) <= t.m.slaves.Keys by { WaitersIn(t.m); }
    if s.m.child.Saving? {
      SnapThere(s, t, s.child);
    }
    forall x | x in Waiters(t.m)
      ensures StartOk(t, x, t.m.slaves[x].start)
      ensures t.m.child.Saving? && t.m.child.fullsync ==> Apart(x in t.waited, t.marks[x], t.child.mark)
    {
      RegisteredWaiters(s, fd, x);
      RegisteredMark(s, fd, x);
    }
  }

  lemma RegisteredKeeps(s: Sys, fd: Fd)
    requires Inv(s) && fd in s.m.conns && MayAsk(s, fd)
    ensures Inv(Registered(s, fd))
  {
    hide LogInv, MasterInv, LinkInv, SlaveInv, GapFree;
    RegisteredMaster(s, fd);
    var t := Registered(s, fd);
    LogSince(s);
    SameLog(s, t);
    if s.link.Some? {
      LinkFd(s);
      RegisteredLink(s, fd);
    }
    LinkLater(s, t);
    SlaveLater(s, t);
  }

  lemma RegisteredLink(s: Sys, fd: Fd)
    requires LinkInv(s) && MayAsk(s, fd)
    ensures LinkTouched(s, Registered(s, fd))
  {
    hide Pos, ReplyBytes, AtStart;
  }

  // ---- PSYNC ---------------------------------------------------------------------------------------------------------------------------------

  /** A partial resync is offered to the followed replica only from its own offset. */
  lemma ContinuedKeeps(s: Sys, fd: Fd, replid: Bytes, offset: int, fork: Option<Orders>)
    requires Inv(s) && ForkFits(s, fork) && Continues(s.m, fd, replid, offset) && MayAsk(s, fd)
    requires s.link.Some? && s.link.value.fd == fd ==>
               Ours(s) && s.sl.offset == offset && s.sl.state == WaitFullresync && s.sl.input == [] && s.link.value.got == 0
    ensures Inv(PsyncStep(s, fd, replid, offset, fork))
  {
    hide LogInv, SlaveInv, GapFree, MasterInv, LinkInv, OnPsync, ForkOf;
    PsyncIsOnPsync(s, fd, replid, offset, fork);
    var t := PsyncStep(s, fd, replid, offset, fork);
    PsyncGapFree(s.m, fd, replid, offset, ForkOf(s, fork));
    LogSince(s);
    ContinuedOut(s.m, fd, replid, offset, ForkOf(s, fork));
    SameLog(s, t);
    ContinuedMaster(s, fd, replid, offset, fork);
    ContinuedLink(s, fd, replid, offset, fork);
    SlaveLater(s, t);
  }

  lemma ContinuedMaster(s: Sys, fd: Fd, replid: Bytes, offset: int, fork: Option<Orders>)
    requires MasterInv(s) && LogInv(s) && ForkFits(s, fork) && Continues(s.m, fd, replid, offset)
    ensures MasterInv(PsyncStep(s, fd, replid, offset, fork))
  {
    hide LogInv, CycleOk, HeadOk, OnPsync, ForkOf;
    var t := PsyncStep(s, fd, replid, offset, fork);
    LogSince(s);
    ContinuedOut(s.m, fd, replid, offset, ForkOf(s, fork));
    ContinuedRest(s.m, fd, replid, offset, ForkOf(s, fork));
    assert CycleOk(t) by { OnlyCycle(s, t); }
    forall x | x in t.m.out ensures HeadOk(t, x, t.m.out[x].head) {
      if x != fd {
        OnlyHead(s, t, x);
      } else {
        assert t.m.out[x].head.ContinueHead?;
        PlainHead(t, x);
      }
    }
  }

  lemma PlainHead(s: Sys, fd: Fd)
    requires fd in s.m.out && (s.m.out[fd].head.ContinueHead? || s.m.out[fd].head.NoHead?)
    ensures HeadOk(s, fd, s.m.out[fd].head)
  {}

  lemma ContinuedRest(m: Master, fd: Fd, replid: Bytes, offset: int, fork: Fork)
    requires Continues(m, fd, replid, offset)
    ensures var n := OnPsync(m, fd, replid, offset, fork);
            && n.activeStart == m.activeStart && (n.active ==> m.active)
            && n.child == m.child && n.saveStarted == m.saveStarted
            && (forall x | x in n.out :: x == fd || x in m.out)
            && (forall x | x in Waiters(n) :: x in Waiters(m) && n.slaves[x] == m.slaves[x])
  {}

  lemma ContinuedLink(s: Sys, fd: Fd, replid: Bytes, offset: int, fork: Option<Orders>)
    requires LinkInv(s) && ForkFits(s, fork) && Continues(s.m, fd, replid, offset) && MayAsk(s, fd)
    requires s.link.Some? && s.link.value.fd == fd ==>
               Ours(s) && s.sl.offset == offset && s.sl.state == WaitFullresync && s.sl.input == [] && s.link.value.got == 0
    ensures LinkInv(PsyncStep(s, fd, replid, offset, fork))
  {
    hide LinkInv;
    if s.link.Some? && s.link.value.fd == fd {
      ContinuedOwn(s, fd, replid, offset, fork);
    } else {
      ContinuedOther(s, fd, replid, offset, fork);
    }
  }

  lemma ContinuedOwn(s: Sys, fd: Fd, replid: Bytes, offset: int, fork: Option<Orders>)
    requires LinkInv(s) && ForkFits(s, fork) && Continues(s.m, fd, replid, offset) && MayAsk(s, fd)
    requires s.link.Some? && s.link.value.fd == fd && s.link.value.got == 0
    requires Ours(s) && s.sl.offset == offset && s.sl.state == WaitFullresync && s.sl.input == []
    ensures LinkInv(PsyncStep(s, fd, replid, offset, fork))
  {
    hide Pos, ReplyBytes, OnPsync, AtStart, ForkOf;
    var t := PsyncStep(s, fd, replid, offset, fork);
    ContinuedOut(s.m, fd, replid, offset, ForkOf(s, fork));
    Positioned(s);
    WaitPos(s.sl, t.m.out[fd], t.m.replid);
    NotPast(t, fd);
  }

  lemma ContinuedOther(s: Sys, fd: Fd, replid: Bytes, offset: int, fork: Option<Orders>)
    requires LinkInv(s) && ForkFits(s, fork) && Continues(s.m, fd, replid, offset)
    requires s.link.Some? ==> s.link.value.fd != fd
    ensures LinkInv(PsyncStep(s, fd, replid, offset, fork))
  {
    hide Pos, ReplyBytes, OnPsync, AtStart, ForkOf;
    var t := PsyncStep(s, fd, replid, offset, fork);
    ContinuedOut(s.m, fd, replid, offset, ForkOf(s, fork));
    if s.link.Some? {
      SameStart(s, t);
    }
  }

  lemma SameStart(s: Sys, t: Sys)
    requires s.link.Some? && AtStart(s, s.link.value.fd) && t.sl == s.sl && t.at == s.at && t.marks == s.marks
    requires t.loaded == s.loaded
    ensures AtStart(t, s.link.value.fd)
  {}

  lemma NotPast(s: Sys, fd: Fd)
    requires s.sl.state == WaitFullresync
    ensures AtStart(s, fd)
  {}

  lemma Positioned(s: Sys)
    requires LinkInv(s) && s.link.Some? && s.sl.state == WaitFullresync
    ensures s.sl.stream == [] && !s.sl.rdbOpen
  {}

  lemma WaitPos(sl: Slave, r: Reply, replid: Bytes)
    requires sl.state == WaitFullresync && sl.input == [] && sl.stream == [] && !sl.rdbOpen
    requires r.head.ContinueHead? ==> sl.haveOffset && sl.replid == replid && r.head.offset == sl.offset
    ensures Pos(sl, r, replid, ReplyBytes(replid, r)[0..])
  {
    assert [] + ReplyBytes(replid, r)[0..] == ReplyBytes(replid, r);
  }

  lemma ContinuedOut(m: Master, fd: Fd, replid: Bytes, offset: int, fork: Fork)
    requires Continues(m, fd, replid, offset)
    ensures var n := OnPsync(m, fd, replid, offset, fork);
            && n.replid == m.replid && n.log == m.log && fd in n.out && n.out[fd] == Reply(ContinueHead(offset), m.log[offset..], [])
            && (forall x | x in m.out && x != fd :: x in n.out && n.out[x] == m.out[x])
            && (forall x | x in n.slaves && x != fd :: x in m.slaves)
  {}

  lemma PsyncKeeps(s: Sys, fd: Fd, replid: Bytes, offset: int, fork: Option<Orders>)
    requires Inv(s) && ForkFits(s, fork) && MayAsk(s, fd)
    requires s.link.Some? && s.link.value.fd == fd && Continues(s.m, fd, replid, offset) ==>
               Ours(s) && s.sl.offset == offset && s.sl.state == WaitFullresync && s.sl.input == [] && s.link.value.got == 0
    ensures Inv(PsyncStep(s, fd, replid, offset, fork))
  {
    hide Inv, Registered, Started;
    if fd !in s.m.conns {
    } else if Continues(s.m, fd, replid, offset) {
      ContinuedKeeps(s, fd, replid, offset, fork);
    } else {
      RegisteredKeeps(s, fd);
      RegisteredDb(s, fd);
      StartedKeeps(Registered(s, fd), fork);
    }
  }

  lemma RegisteredDb(s: Sys, fd: Fd)
    ensures Registered(s, fd).db == s.db
  {}

  // ---- the end of a save ---------------------------------------------------------------------------------------------------------------------

  function Reaped(s: Sys): Sys { s.(m := s.m.(child := Idle, saveStarted := false)) }

  lemma ReapedKeeps(s: Sys)
    requires Inv(s)
    ensures Inv(Reaped(s))
  {
    hide LogInv, SlaveInv, Image, RunAt, SnapOk, MarkOk;
    var t := Reaped(s);
    LogSince(s);
    SameLog(s, t);
    assert Waiters(t.m) == Waiters(s.m);
    MasterReaped(s);
    SlaveLater(s, t);
  }

  lemma MasterReaped(s: Sys)
    requires MasterInv(s)
    ensures MasterInv(Reaped(s))
  {
    hide OrdersOf, Coherent, ViewOf, Effects, Image;
    var t := Reaped(s);
    assert Waiters(t.m) == Waiters(s.m);
    forall x | x in t.m.out ensures HeadOk(t, x, t.m.out[x].head) {
      assert HeadOk(s, x, s.m.out[x].head);
    }
  }

  lemma DroppedKeeps(s: Sys)
    requires Inv(s)
    ensures Inv(s.(m := DropWaiters(s.m)))
  {
    hide LogInv, LinkInv, SlaveInv, Touches;
    var t := s.(m := DropWaiters(s.m));
    LogSince(s);
    SameLog(s, t);
    DropGapFree(s.m);
    assert Waiters(t.m) == {};
    if s.link.Some? {
      LinkFd(s);
      DropTouches(s.m, s.link.value.fd);
    }
    DroppedMaster(s);
    TouchedLink(s, t);
    LinkLater(s, t);
    SlaveLater(s, t);
  }

  lemma DroppedMaster(s: Sys)
    requires MasterInv(s) && LogInv(s)
    ensures MasterInv(s.(m := DropWaiters(s.m)))
  {
    hide MasterInv;
    var t := s.(m := DropWaiters(s.m));
    LogSince(s);
    assert Waiters(t.m) == {};
    MasterLater(s, t);
  }

  /** The snapshot of the finished save, with the replicas that were waiting at its fork. */
  ghost predicate Deliverable(s: Sys, snap: Snap, waited: set<Fd>) {
    SnapOk(s, snap) && forall fd | fd in Waiters(s.m) :: fd in s.marks && Apart(fd in waited, s.marks[fd], snap.mark)
  }

  ghost function Delivered(s: Sys, snap: Snap, waited: set<Fd>, fates: map<Fd, Fate>): Sys
    requires OrdersOf(snap.orders, snap.db)
  {
    s.(m := SendToWaiters(s.m, Image(snap.db, snap.orders), fates),
       sent := s.sent + (map fd | fd in Waiters(s.m) :: Sent(snap, fd in waited)))
  }

  lemma DeliveredHead(s: Sys, snap: Snap, waited: set<Fd>, fates: map<Fd, Fate>, fd: Fd)
    requires GapFree(s.m) && OrdersOf(snap.orders, snap.db) && SnapOk(s, snap) && s.since <= |s.fed|
    requires fd in s.m.out && HeadOk(s, fd, s.m.out[fd].head)
    requires fd in Waiters(s.m) ==> StartOk(s, fd, s.m.slaves[fd].start)
    requires fd in Waiters(s.m) ==> fd in s.marks && Apart(fd in waited, s.marks[fd], snap.mark)
    ensures var t := Delivered(s, snap, waited, fates); fd in t.m.out && HeadOk(t, fd, t.m.out[fd].head)
  {
    hide Image, GapFree, SnapOk, MarkOk, SendToWaiters, Waiters, OrdersOf;
    var t := Delivered(s, snap, waited, fates);
    SentHead(s.m, Image(snap.db, snap.orders), fates, fd);
    if fd in Waiters(s.m) {
      ImageSize(snap.db, snap.orders);
      MarkLater(s, t, s.marks[fd]);
      SnapLater(s, t, snap);
    } else {
      HeadLater(s, t, fd, s.m.out[fd].head);
    }
  }

  lemma SentHead(m: Master, image: Bytes, fates: map<Fd, Fate>, fd: Fd)
    requires GapFree(m) && fd in m.out
    ensures fd in SendToWaiters(m, image, fates).out
    ensures var h := SendToWaiters(m, image, fates).out[fd].head;
            if fd !in Waiters(m) then h == m.out[fd].head
            else h == NoHead || h == FullHead(m.slaves[fd].start, image, None) || h == BrokenHead(m.slaves[fd].start, |image|)
  {
    hide RunAt;
  }

  lemma DeliveredMaster(s: Sys, snap: Snap, waited: set<Fd>, fates: map<Fd, Fate>)
    requires GapFree(s.m) && MasterInv(s) && Deliverable(s, snap, waited) && s.since <= |s.fed|
    ensures MasterInv(Delivered(s, snap, waited, fates))
  {
    hide HeadOk, OrdersOf, Coherent, ViewOf, Effects, Image, GapFree;
    var t := Delivered(s, snap, waited, fates);
    forall fd | fd in t.m.out ensures HeadOk(t, fd, t.m.out[fd].head) {
      DeliveredHead(s, snap, waited, fates, fd);
    }
    DeliveredCycle(s, snap, waited, fates);
  }

  lemma DeliveredCycle(s: Sys, snap: Snap, waited: set<Fd>, fates: map<Fd, Fate>)
    requires CycleOk(s) && Deliverable(s, snap, waited)
    ensures CycleOk(Delivered(s, snap, waited, fates))
  {
    hide OrdersOf, Coherent, ViewOf, Effects, Image;
    assert Waiters(Delivered(s, snap, waited, fates).m) == {};
  }

  lemma DeliveredKeeps(s: Sys, snap: Snap, waited: set<Fd>, fates: map<Fd, Fate>)
    requires Inv(s) && Deliverable(s, snap, waited)
    ensures Inv(Delivered(s, snap, waited, fates))
  {
    hide LogInv, LinkInv, SlaveInv, MasterInv, GapFree, Touches, SendToWaiters, Image;
    var t := Delivered(s, snap, waited, fates);
    var image := Image(snap.db, snap.orders);
    LogSince(s);
    SendKeepsRest(s.m, image, fates);
    SameLog(s, t);
    SendGapFree(s.m, image, fates);
    if s.link.Some? {
      LinkFd(s);
      SendTouches(s.m, image, fates, s.link.value.fd);
    }
    DeliveredMaster(s, snap, waited, fates);
    TouchedLink(s, t);
    LinkLater(s, t);
    SlaveLater(s, t);
  }

  lemma SendKeepsRest(m: Master, image: Bytes, fates: map<Fd, Fate>)
    ensures var n := SendToWaiters(m, image, fates); n.log == m.log && n.replid == m.replid
  {}

  lemma SaveEndsKeeps(s: Sys, ok: bool, fates: map<Fd, Fate>, fork: Option<Orders>)
    requires Inv(s) && ForkFits(s, fork) && s.m.child.Saving?
    ensures Inv(SaveEndsStep(s, ok, fates, fork))
  {
    hide GapFree, LogInv, MasterInv, LinkInv, SlaveInv, StartFullsync, SendToWaiters, DropWaiters;
    SaveEndsIs(s, ok, fates, fork);
    ReapedKeeps(s);
    var r := Reaped(s);
    if !(s.m.saveStarted && s.m.child.fullsync) {
      StartedKeeps(r, fork);
      StartedRest(r, fork);
      assert ForkOf(r, fork) == ForkOf(s, fork);
    } else if !ok {
      DroppedKeeps(r);
    } else {
      ChildDeliverable(s);
      DeliveredKeeps(r, s.child, s.waited, fates);
    }
  }

  lemma ChildDeliverable(s: Sys)
    requires MasterInv(s) && s.m.child.Saving? && s.m.child.fullsync
    ensures Deliverable(Reaped(s), s.child, s.waited) && s.m.child.image == Image(s.child.db, s.child.orders)
  {
    hide OrdersOf, Coherent, ViewOf, Effects, Image, HeadOk;
    assert Waiters(Reaped(s).m) == Waiters(s.m);
  }

  lemma SaveEndsIs(s: Sys, ok: bool, fates: map<Fd, Fate>, fork: Option<Orders>)
    requires MasterInv(s) && ForkFits(s, fork) && s.m.child.Saving?
    ensures var t := SaveEndsStep(s, ok, fates, fork);
            var r := Reaped(s);
            if !(s.m.saveStarted && s.m.child.fullsync) then t == Started(r, fork)
            else if !ok then t == r.(m := DropWaiters(r.m))
            else t == Delivered(r, s.child, s.waited, fates)
  {
    hide OrdersOf, Coherent, ViewOf, Effects, Image, HeadOk, StartFullsync, SendToWaiters, DropWaiters;
    assert Waiters(Reaped(s).m) == Waiters(s.m);
  }

  /** A child lost without a result: the invariant does not need it. */
  lemma LostKeeps(s: Sys)
    requires Inv(s)
    ensures Inv(s.(m := LoseChild(s.m)))
  {
    hide LogInv, SlaveInv, Image, RunAt, SnapOk, MarkOk;
    var t := s.(m := LoseChild(s.m));
    LogSince(s);
    SameLog(s, t);
    assert Waiters(t.m) == Waiters(s.m);
    MasterLost(s);
    SlaveLater(s, t);
  }

  lemma MasterLost(s: Sys)
    requires MasterInv(s)
    ensures MasterInv(s.(m := LoseChild(s.m)))
  {
    hide OrdersOf, Coherent, ViewOf, Effects, Image;
    var t := s.(m := LoseChild(s.m));
    assert Waiters(t.m) == Waiters(s.m);
    forall x | x in t.m.out ensures HeadOk(t, x, t.m.out[x].head) {
      assert HeadOk(s, x, s.m.out[x].head);
    }
  }

  // ---- the remaining steps of the master -------------------------------------------------------------------------------------------------------

  /** The master's part of a step that neither feeds, nor registers, nor forks. */
  ghost predicate MasterOnly(s: Sys, t: Sys) {
    && t == s.(m := t.m) && t.m.log == s.m.log && t.m.replid == s.m.replid
    && t.m.activeStart == s.m.activeStart && (t.m.active ==> s.m.active)
    && t.m.child == s.m.child && t.m.saveStarted == s.m.saveStarted
    && (forall fd | fd in Waiters(t.m) :: fd in Waiters(s.m) && t.m.slaves[fd] == s.m.slaves[fd])
  }

  lemma MasterOnlyKeeps(s: Sys, t: Sys)
    requires Inv(s) && MasterOnly(s, t) && GapFree(t.m)
    requires forall fd | fd in t.m.out :: HeadOk(t, fd, t.m.out[fd].head)
    requires s.link.Some? ==> Touches(s.m, t.m, s.link.value.fd)
    ensures Inv(t)
  {
    hide LogInv, LinkInv, SlaveInv, GapFree, Touches, HeadOk;
    LogSince(s);
    SameLog(s, t);
    OnlyCycle(s, t);
    TouchedLink(s, t);
    LinkLater(s, t);
    SlaveLater(s, t);
  }

  lemma OnlyCycle(s: Sys, t: Sys)
    requires CycleOk(s) && MasterOnly(s, t)
    ensures CycleOk(t)
  {
    hide OrdersOf, Coherent, ViewOf, Effects, Image;
  }

  lemma OnlyHead(s: Sys, t: Sys, fd: Fd)
    requires MasterInv(s) && t == s.(m := t.m) && s.since <= |s.fed|
    requires fd in s.m.out && fd in t.m.out && t.m.out[fd].head == s.m.out[fd].head
    ensures HeadOk(t, fd, t.m.out[fd].head)
  {
    hide CycleOk, SnapOk, MarkOk, Image;
    HeadLater(s, t, fd, s.m.out[fd].head);
  }

  lemma FileSentOut(m: Master, fd: Fd, ok: bool, x: Fd)
    requires GapFree(m) && x in m.out
    ensures var n := SendFileDone(m, fd, ok);
            && x in n.out
            && (n.out[x].head == m.out[x].head
                || (m.out[x].head.FullHead? && m.out[x].head.offset <= |m.log|
                    && n.out[x].head == m.out[x].head.(backlog := Some(|m.log| - m.out[x].head.offset))))
  {
    hide RunAt, ReplyOk;
  }

  lemma FileSentHead(s: Sys, fd: Fd, ok: bool, x: Fd)
    requires Inv(s) && x in s.m.out
    ensures var t := s.(m := SendFileDone(s.m, fd, ok)); x in t.m.out && HeadOk(t, x, t.m.out[x].head)
  {
    hide SlaveInv, LinkInv, GapFree, SendFileDone, CycleOk, SnapOk, MarkOk, Image, Boundary;
    GapBase(s.m);
    var t := s.(m := SendFileDone(s.m, fd, ok));
    LogSince(s);
    FileSentOut(s.m, fd, ok, x);
    HeadLater(s, t, x, s.m.out[x].head);
    TipBoundary(s);
  }

  lemma TipBoundary(s: Sys)
    requires LogInv(s)
    ensures Boundary(s.fed, |s.m.log|)
  {
    hide ViewOf, Coherent;
    OffAll(s.fed);
  }

  lemma FileSentRest(m: Master, fd: Fd, ok: bool)
    requires GapFree(m)
    ensures var n := SendFileDone(m, fd, ok);
            && n.log == m.log && n.replid == m.replid && n.activeStart == m.activeStart && (n.active ==> m.active)
            && n.child == m.child && n.saveStarted == m.saveStarted && n.out.Keys == m.out.Keys
            && (forall fd | fd in Waiters(n) :: fd in Waiters(m) && n.slaves[fd] == m.slaves[fd])
  {
    hide PeerOk, ReplyOk;
  }

  lemma FileSentKeeps(s: Sys, fd: Fd, ok: bool)
    requires Inv(s)
    ensures Inv(s.(m := SendFileDone(s.m, fd, ok)))
  {
    hide LogInv, LinkInv, SlaveInv, MasterInv, GapFree, Touches, SendFileDone, HeadOk, Waiters;
    GapBase(s.m);
    var t := s.(m := SendFileDone(s.m, fd, ok));
    SendFileDoneGapFree(s.m, fd, ok);
    FileSentRest(s.m, fd, ok);
    forall x | x in t.m.out ensures HeadOk(t, x, t.m.out[x].head) {
      FileSentHead(s, fd, ok, x);
    }
    if s.link.Some? {
      LinkFd(s);
      FileSentTouches(s.m, fd, ok, s.link.value.fd);
    }
    MasterOnlyKeeps(s, t);
  }

  lemma OpenCloseRest(m: Master, fd: Fd, x: Fd)
    requires GapFree(m)
    ensures var o, c := Open(m, fd), Close(m, fd);
            && o.log == m.log && o.replid == m.replid && o.activeStart == m.activeStart && o.active == m.active
            && o.child == m.child && o.saveStarted == m.saveStarted && Waiters(o) == Waiters(m) && o.slaves == m.slaves
            && c.log == m.log && c.replid == m.replid && c.activeStart == m.activeStart && (c.active ==> m.active)
            && c.child == m.child && c.saveStarted == m.saveStarted && c.out == m.out
            && (forall fd | fd in Waiters(c) :: fd in Waiters(m) && c.slaves[fd] == m.slaves[fd])
            && (x in m.out ==> Touches(m, o, x) && Touches(m, c, x))
            && (forall y | y in o.out :: if y in m.out then o.out[y] == m.out[y] else o.out[y] == SILENT)
  {
    hide PeerOk, ReplyOk;
  }

  lemma OpenKeeps(s: Sys, fd: Fd)
    requires Inv(s)
    ensures Inv(s.(m := Open(s.m, fd)))
  {
    hide LogInv, LinkInv, SlaveInv, MasterInv, GapFree, Touches, Open, Waiters;
    var t := s.(m := Open(s.m, fd));
    GapBase(s.m);
    LogSince(s);
    OthersGapFree(s.m, fd, ForkFailed);
    OpenCloseRest(s.m, fd, if s.link.Some? then s.link.value.fd else fd);
    forall x | x in t.m.out ensures HeadOk(t, x, t.m.out[x].head) {
      if x in s.m.out {
        OnlyHead(s, t, x);
      }
    }
    if s.link.Some? {
      LinkFd(s);
    }
    MasterOnlyKeeps(s, t);
  }

  lemma CloseKeeps(s: Sys, fd: Fd)
    requires Inv(s)
    ensures Inv(s.(m := Close(s.m, fd)))
  {
    hide LogInv, LinkInv, SlaveInv, MasterInv, GapFree, Touches, Close, Waiters, HeadOk;
    var t := s.(m := Close(s.m, fd));
    GapBase(s.m);
    LogSince(s);
    OthersGapFree(s.m, fd, ForkFailed);
    OpenCloseRest(s.m, fd, if s.link.Some? then s.link.value.fd else fd);
    forall x | x in t.m.out ensures HeadOk(t, x, t.m.out[x].head) {
      OnlyHead(s, t, x);
    }
    if s.link.Some? {
      LinkFd(s);
    }
    MasterOnlyKeeps(s, t);
  }

  lemma SaveKeeps(s: Sys, fork: Option<Orders>)
    requires Inv(s) && ForkFits(s, fork)
    ensures Inv(SaveStep(s, fork))
  {
    hide LogInv, LinkInv, SlaveInv, GapFree, MasterInv, LinkTouched, SaveCommand, Touches, SaveStep, ForkOf, ForkFits;
    var t := SaveStep(s, fork);
    GapBase(s.m);
    LogSince(s);
    OthersGapFree(s.m, 0, ForkOf(s, fork));
    SaveIs(s, fork);
    SameLog(s, t);
    SaveMaster(s, fork);
    if s.link.Some? {
      LinkFd(s);
      SameOut(s, t);
    }
    TouchedLink(s, t);
    LinkLater(s, t);
    SlaveLater(s, t);
  }

  lemma SaveIs(s: Sys, fork: Option<Orders>)
    requires ForkFits(s, fork)
    ensures var t := SaveStep(s, fork);
            && t.m == SaveCommand(s.m, ForkOf(s, fork)) && t == s.(m := t.m, child := t.child, waited := t.waited)
            && t.m.log == s.m.log && t.m.replid == s.m.replid && t.m.out == s.m.out && t.m.slaves == s.m.slaves
  {
    hide SaveCommand, ForkOf;
    SaveRest(s.m, ForkOf(s, fork));
  }

  lemma SaveRest(m: Master, fork: Fork)
    ensures var n := SaveCommand(m, fork);
            n.log == m.log && n.replid == m.replid && n.out == m.out && n.slaves == m.slaves && n.conns == m.conns
  {}

  lemma SaveMaster(s: Sys, fork: Option<Orders>)
    requires MasterInv(s) && LogInv(s) && ForkFits(s, fork)
    ensures MasterInv(SaveStep(s, fork))
  {
    hide CycleOk, HeadOk, LogInv, Image, OrdersOf;
    var t := SaveStep(s, fork);
    LogSince(s);
    SaveCycle(s, fork);
    forall x | x in t.m.out ensures HeadOk(t, x, t.m.out[x].head) {
      SaveHead(s, t, x);
    }
  }

  lemma SaveHead(s: Sys, t: Sys, x: Fd)
    requires MasterInv(s) && s.since <= |s.fed| && x in s.m.out
    requires t.fed == s.fed && t.epoch == s.epoch && t.since == s.since && t.from == s.from
    requires t.marks == s.marks && t.sent == s.sent && t.m.out == s.m.out
    ensures HeadOk(t, x, t.m.out[x].head)
  {
    hide CycleOk, SnapOk, MarkOk, Image;
    HeadLater(s, t, x, s.m.out[x].head);
  }

  lemma SameOut(s: Sys, t: Sys)
    requires s.link.Some? && s.link.value.fd in s.m.out && t.m.out == s.m.out && t.m.slaves == s.m.slaves
    ensures Touches(s.m, t.m, s.link.value.fd)
  {}

  lemma SaveCycle(s: Sys, fork: Option<Orders>)
    requires CycleOk(s) && LogInv(s) && ForkFits(s, fork)
    ensures CycleOk(SaveStep(s, fork))
  {
    hide OrdersOf, Coherent, ViewOf, Effects, Image, LogInv;
    NowOk(s);
    if fork.Some? {
      SnapNow(s, fork.value);
    }
    assert Waiters(SaveStep(s, fork).m) == Waiters(s.m);
  }

  lemma TouchKeeps(s: Sys, db: Db)
    requires Inv(s) && Coherent(db.index) && ViewOf(db) == ViewOf(s.db)
    ensures Inv(s.(db := db))
  {
    hide GapFree, MasterInv, LinkInv, Coherent, ViewOf;
    var t := s.(db := db);
    assert Later(s, t) && ViewMoves(s, t) by {
      forall c ensures t.fed != s.fed + [c] {
        assert |t.fed| < |s.fed + [c]|;
      }
    }
    SlaveLater(s, t);
    MasterLater(s, t);
    assert LinkInv(t) by { LinkSame(s, t); }
  }

  lemma LinkSame(s: Sys, t: Sys)
    requires LinkInv(s) && t.m == s.m && t.link == s.link && t.sl == s.sl && t.at == s.at && t.marks == s.marks
    requires t.loaded == s.loaded
    ensures LinkInv(t)
  {}
}
