/** The whole replication system: one master, any number of replicas, and one replica process
    followed byte by byte through snapshots, streaming, failures and reconnects. */
module Replication {
  import opened ByteStrings
  import opened Commands
  import opened Views
  import opened VNodeStorages
  import opened VNodeIndexes
  import opened Databases
  import opened Frames
  import opened Snapshots
  import opened ReplicationSlaves
  import opened ReplicationMasters

  // ---- state --------------------------------------------------------------------------------------------

  /** A moment: how many commands had been fed, and how many writes had by then escaped the feed. */
  datatype Mark = Mark(k: nat, epoch: nat)

  /** The master's data as a save child saw it. */
  datatype Snap = Snap(db: Db, orders: Orders, mark: Mark)

  /** The snapshot sent on a connection, and whether its replica was waiting when it was forked. */
  datatype Sent = Sent(snap: Snap, waited: bool)

  /** A completed load: the snapshot, whether the replica was waiting when it was forked, and the moment
      of the start offset that came with it. */
  datatype Loaded = Loaded(snap: Snap, waited: bool, start: Mark)

  /** The followed replica's connection: bytes read from it so far, and whether its PSYNC was served. */
  datatype Link = Link(fd: Fd, got: nat, asked: bool)

  datatype Sys = Sys(
    m: Master, db: Db,
    fed: seq<Cmd>,               // every command fed to the backlog
    epoch: nat,                  // writes applied but not fed
    from: View, since: nat,      // what clients saw after the last of those, and |fed| then
    marks: map<Fd, Mark>,        // the moment of each registered start offset
    activeMark: Mark,            // ... and of the shared one
    waited: set<Fd>,             // the replicas waiting when the running save was forked
    child: Snap, sent: map<Fd, Sent>,
    sl: Slave, link: Option<Link>,
    at: Mark,                    // the moment of the replica's recorded offset
    loaded: Option<Loaded>)      // the sound load the replica has completed since that offset was announced

  function Off(fed: seq<Cmd>, k: nat): nat
    requires k <= |fed|
  {
    |EncodeAll(fed[..k])|
  }

  function Now(s: Sys): Mark { Mark(|s.fed|, s.epoch) }

  /** Loading this image gives back the data it was made from. */
  ghost predicate Sound(sn: Snap) {
    && OrdersOf(sn.orders, sn.db)
    && ImageFits(sn.db, sn.orders)
    && (sn.db.index.storage.nextId != 0 || sn.db.index.storage.byId == map[])
  }

  function BytesOn(s: Sys, fd: Fd): Bytes
    requires fd in s.m.out
  {
    ReplyBytes(s.m.replid, s.m.out[fd])
  }

  // ---- events -------------------------------------------------------------------------------------------

  datatype Event =
    | Write(c: Cmd, appended: bool, slow: set<Fd>)   // a change of the data; `appended` unless the AOF refused it
    | Touch(db: Db)                                  // a read, or a failed write
    | Connect(fd: Fd)
    | Disconnect(fd: Fd)
    | Psync(fd: Fd, replid: Bytes, offset: int, fork: Option<Orders>)
    | Save(fork: Option<Orders>)
    | SaveEnds(ok: bool, fates: map<Fd, Fate>, fork: Option<Orders>)
    | FileSent(fd: Fd, ok: bool)
    | ChildLost                                      // the save child is gone and nobody is told
    | SlaveConnects(fd: Fd)
    | SlaveAsks(fork: Option<Orders>)
    | SlaveReceives(n: nat)
    | SlaveRound(hint: Walk)
    | SlaveDrops
    | SlaveComes(id: Bytes, position: nat, data: Db)   // in its place, a replica that followed another master so far

  /** The dimension of the vectors, once locked, stays. */
  ghost predicate KeepsDim(a: Db, b: Db) { a.index.ann.Some? ==> b.index.ann.Some? && Dim(b.index) == Dim(a.index) }

  ghost predicate ForkFits(s: Sys, fork: Option<Orders>) { fork.Some? ==> OrdersOf(fork.value, s.db) }

  ghost predicate Enabled(s: Sys, e: Event) {
    match e
    case Write(c, _, _) => Apply(s.db, c).done
    case Touch(db) => Coherent(db.index) && ViewOf(db) == ViewOf(s.db) && KeepsDim(s.db, db)
    case Connect(fd) => fd !in s.m.out
    case Disconnect(_) => true
    case Psync(fd, _, _, fork) => ForkFits(s, fork) && (s.link.Some? ==> s.link.value.fd != fd)
    case Save(fork) => ForkFits(s, fork)
    case SaveEnds(_, _, fork) => ForkFits(s, fork) && s.m.child.Saving?
    case FileSent(_, _) => true
    case ChildLost => s.m.child.Saving?
    case SlaveConnects(fd) => s.link.None? && fd !in s.m.out
    case SlaveAsks(fork) => ForkFits(s, fork) && s.link.Some? && !s.link.value.asked && s.link.value.fd in s.m.conns
    case SlaveReceives(n) =>
      s.link.Some? && s.link.value.fd in s.m.out && s.link.value.got + n <= |BytesOn(s, s.link.value.fd)|
    case SlaveRound(_) => s.link.Some?
    case SlaveDrops => s.link.Some?
    case SlaveComes(id, _, _) => s.link.None? && id != s.m.replid
  }

  // ---- master steps ----------------------------------------------------------------------------------------

  ghost function ForkOf(s: Sys, fork: Option<Orders>): Fork
    requires ForkFits(s, fork)
  {
    if fork.Some? then Forked(Image(s.db, fork.value)) else ForkFailed
  }

  /** A change of the data is fed if a replica is registered and the append succeeded. */
  function WriteStep(s: Sys, c: Cmd, appended: bool, slow: set<Fd>): Sys
    requires s.m.base <= |s.m.log|
  {
    var t := s.(db := Apply(s.db, c).db);
    if appended && s.m.slaves != map[] then t.(fed := s.fed + [c], m := FeedFrame(s.m, Encode(c), slow))
    else t.(epoch := s.epoch + 1, from := ViewOf(t.db), since := |s.fed|)
  }

  /** StartFullsync, with the moments it shares out and the snapshot it forks. */
  ghost function Started(s: Sys, fork: Option<Orders>): Sys
    requires ForkFits(s, fork)
  {
    var t := s.(m := StartFullsync(s.m, ForkOf(s, fork)));
    if s.m.saveStarted || Waiters(s.m) == {} then t
    else
      var shared := if s.m.active then s.activeMark else Now(s);
      var u := t.(activeMark := shared,
                  marks := map fd | fd in s.marks :: if fd in Waiters(s.m) then shared else s.marks[fd]);
      if s.m.child.Saving? || fork.None? then u
      else u.(child := Snap(s.db, fork.value, Now(s)), waited := Waiters(s.m))
  }

  predicate Continues(m: Master, fd: Fd, replid: Bytes, offset: int) {
    fd in m.conns && !WantsFullsync(replid, offset) && replid == m.replid && Retains(m, offset)
  }

  function Registered(s: Sys, fd: Fd): Sys {
    var a := RemoveSlave(s.m, fd);
    s.(m := a.(slaves := a.slaves[fd := Peer(WaitRdb, |a.log|)], out := a.out[fd := SILENT]),
       marks := s.marks[fd := Now(s)], waited := s.waited - {fd})
  }

  ghost function PsyncStep(s: Sys, fd: Fd, replid: Bytes, offset: int, fork: Option<Orders>): Sys
    requires ForkFits(s, fork)
  {
    if fd !in s.m.conns || Continues(s.m, fd, replid, offset)
    then s.(m := OnPsync(s.m, fd, replid, offset, ForkOf(s, fork)))
    else Started(Registered(s, fd), fork)
  }

  /** The step above is the master's own operation. */
  lemma PsyncIsOnPsync(s: Sys, fd: Fd, replid: Bytes, offset: int, fork: Option<Orders>)
    requires ForkFits(s, fork)
    ensures PsyncStep(s, fd, replid, offset, fork).m == OnPsync(s.m, fd, replid, offset, ForkOf(s, fork))
  {
    hide ForkOf, OrdersOf, StartFullsync, WantsFullsync, AnyActive;
    if fd in s.m.conns && !Continues(s.m, fd, replid, offset) {
      StartedMaster(Registered(s, fd), fork);
      RemovedLog(s.m, fd);
      assert ForkOf(Registered(s, fd), fork) == ForkOf(s, fork) by { SameForkOf(s, Registered(s, fd), fork); }
    }
  }

  lemma StartedMaster(s: Sys, fork: Option<Orders>)
    requires ForkFits(s, fork)
    ensures Started(s, fork).m == StartFullsync(s.m, ForkOf(s, fork))
  {
    hide ForkOf, OrdersOf, StartFullsync;
  }

  lemma RemovedLog(m: Master, fd: Fd)
    ensures var a := RemoveSlave(m, fd); a.log == m.log && a.replid == m.replid && a.base == m.base
  {}

  lemma SameForkOf(s: Sys, t: Sys, fork: Option<Orders>)
    requires ForkFits(s, fork) && t.db == s.db
    ensures ForkFits(t, fork) && ForkOf(t, fork) == ForkOf(s, fork)
  {}

  ghost function SaveEndsStep(s: Sys, ok: bool, fates: map<Fd, Fate>, fork: Option<Orders>): Sys
    requires ForkFits(s, fork) && s.m.child.Saving?
  {
    var was := s.m.saveStarted && s.m.child.fullsync;
    if !was then Started(s.(m := s.m.(child := Idle, saveStarted := false)), fork)
    else
      var t := s.(m := SaveDone(s.m, ok, fates, ForkOf(s, fork)));
      if !ok then t
      else t.(sent := s.sent + (map fd | fd in Waiters(s.m) :: Sent(s.child, fd in s.waited)))
  }

  ghost function SaveStep(s: Sys, fork: Option<Orders>): Sys
    requires ForkFits(s, fork)
  {
    var t := s.(m := SaveCommand(s.m, ForkOf(s, fork)));
    if s.m.child.Saving? || fork.None? then t else t.(child := Snap(s.db, fork.value, Now(s)), waited := {})
  }

  // ---- steps of the followed replica ---------------------------------------------------------------------------

  /** ResetLink keeps the data, the replication id, the offset and the received file. */
  function ResetLink(sl: Slave): Slave {
    sl.(state := Init, input := [], rdbOpen := false, rdbLeft := 0, backlog := [], backlogLeft := 0, stream := [])
  }

  ghost function AskStep(s: Sys, fork: Option<Orders>): Sys
    requires ForkFits(s, fork) && s.link.Some?
  {
    var known := s.sl.haveOffset && s.sl.replid != [];
    PsyncStep(s.(link := Some(s.link.value.(asked := true))), s.link.value.fd,
              if known then s.sl.replid else [63], if known then s.sl.offset else -1, fork)
  }

  ghost function RoundStep(s: Sys, hint: Walk): Sys
    requires s.link.Some?
  {
    var sl := Iterate(s.sl, hint).slave;
    var fd := s.link.value.fd;
    var t := s.(sl := sl);
    if s.sl.state == WaitFullresync && sl.state == RecvRdbHeader then
      t.(at := if fd in s.marks then s.marks[fd] else s.at, loaded := None)
    else if (s.sl.state == RecvRdbHeader || s.sl.state == RecvRdbBody) && sl.state == RecvBacklogHeader then
      t.(loaded := if fd in s.sent && fd in s.marks && Sound(s.sent[fd].snap)
                   then Some(Loaded(s.sent[fd].snap, s.sent[fd].waited, s.marks[fd])) else None)
    else Advanced(s, sl)
  }

  /** The moment moves on by the frames the offset has passed. */
  ghost function Advanced(s: Sys, sl: Slave): Sys {
    if s.at.k <= |s.fed| && sl.offset >= s.sl.offset
    then s.(sl := sl, at := s.at.(k := s.at.k + WholeFrames(s.fed[s.at.k..], sl.offset - s.sl.offset)))
    else s.(sl := sl)
  }

  ghost function Step(s: Sys, e: Event): Sys
    requires Enabled(s, e) && s.m.base <= |s.m.log|
  {
    match e
    case Write(c, appended, slow) => WriteStep(s, c, appended, slow)
    case Touch(db) => s.(db := db)
    case Connect(fd) => s.(m := Open(s.m, fd))
    case Disconnect(fd) => s.(m := Close(s.m, fd))
    case Psync(fd, replid, offset, fork) => PsyncStep(s, fd, replid, offset, fork)
    case Save(fork) => SaveStep(s, fork)
    case SaveEnds(ok, fates, fork) => SaveEndsStep(s, ok, fates, fork)
    case FileSent(fd, ok) => s.(m := SendFileDone(s.m, fd, ok))
    case ChildLost => s.(m := LoseChild(s.m))
    case SlaveConnects(fd) =>
      s.(m := Open(s.m, fd), sl := ResetLink(s.sl).(state := WaitFullresync), link := Some(Link(fd, 0, false)))
    case SlaveAsks(fork) => AskStep(s, fork)
    case SlaveReceives(n) =>
      var l := s.link.value;
      s.(sl := Receive(s.sl, BytesOn(s, l.fd)[l.got..l.got + n]), link := Some(l.(got := l.got + n)))
    case SlaveRound(hint) => RoundStep(s, hint)
    case SlaveDrops => s.(sl := ResetLink(s.sl), link := None)
    case SlaveComes(id, position, data) =>
      s.(sl := s.sl.(replid := id, offset := position, haveOffset := true, db := data), loaded := None)
  }

  // ---- what every step keeps ---------------------------------------------------------------------------------------

  ghost predicate LogInv(s: Sys) {
    && s.m.log == EncodeAll(s.fed) && AllKeyed(s.fed) && s.m.replid != [] && s.m.replid != [63]
    && (forall i | 0 <= i < |s.m.replid| :: s.m.replid[i] != SPACE && s.m.replid[i] != LF && s.m.replid[i] != CR)
    && Coherent(s.db.index)
    && s.since <= |s.fed| && ViewOf(s.db) == Effects(s.from, s.fed[s.since..])
  }

  ghost predicate MarkOk(s: Sys, mk: Mark) {
    mk.k <= |s.fed| && mk.epoch <= s.epoch && (mk.epoch == s.epoch ==> s.since <= mk.k)
  }

  ghost predicate SnapOk(s: Sys, sn: Snap) {
    && MarkOk(s, sn.mark) && OrdersOf(sn.orders, sn.db) && Coherent(sn.db.index)
    && (sn.mark.epoch == s.epoch ==> ViewOf(sn.db) == Effects(s.from, s.fed[s.since..sn.mark.k]))
  }

  predicate NotAfter(a: Mark, b: Mark) { a.k <= b.k && a.epoch <= b.epoch }

  /** Who was waiting at the fork has a start no later than it, who was not has one no earlier. */
  predicate Apart(waited: bool, start: Mark, fork: Mark) { if waited then NotAfter(start, fork) else NotAfter(fork, start) }

  ghost predicate Boundary(fed: seq<Cmd>, o: nat) { exists k: nat | k <= |fed| :: Off(fed, k) == o }

  ghost predicate StartOk(s: Sys, fd: Fd, offset: nat) {
    fd in s.marks && MarkOk(s, s.marks[fd]) && offset == Off(s.fed, s.marks[fd].k)
  }

  /** A reply's offsets are frame boundaries and its snapshot is a past state of the master. */
  ghost predicate HeadOk(s: Sys, fd: Fd, h: Head) {
    match h
    case FullHead(offset, image, backlog) =>
      && StartOk(s, fd, offset)
      && fd in s.sent && SnapOk(s, s.sent[fd].snap) && image == Image(s.sent[fd].snap.db, s.sent[fd].snap.orders)
      && Apart(s.sent[fd].waited, s.marks[fd], s.sent[fd].snap.mark)
      && (backlog.Some? ==> Boundary(s.fed, offset + backlog.value))
    case BrokenHead(offset, length) => StartOk(s, fd, offset) && length >= 96
    case _ => true
  }

  /** The moments of the shared start, of each waiter's start and of the running save. */
  ghost predicate CycleOk(s: Sys) {
    && (s.m.active ==> MarkOk(s, s.activeMark) && s.m.activeStart == Off(s.fed, s.activeMark.k))
    && (forall fd | fd in Waiters(s.m) :: StartOk(s, fd, s.m.slaves[fd].start))
    && (s.m.child.Saving? ==> SnapOk(s, s.child) && s.m.child.image == Image(s.child.db, s.child.orders))
    && (s.m.child.Saving? && s.m.child.fullsync ==>
          s.m.saveStarted && forall fd | fd in Waiters(s.m) :: Apart(fd in s.waited, s.marks[fd], s.child.mark))
  }

  ghost predicate MasterInv(s: Sys) {
    CycleOk(s) && forall fd | fd in s.m.out :: HeadOk(s, fd, s.m.out[fd].head)
  }

  /** What follows the snapshot in a reply. */
  function Tail(r: Reply): Bytes {
    if r.head.FullHead? && r.head.backlog.Some? then LengthLine(r.head.backlog.value) + r.data else r.err
  }

  /** The parser's position: what it holds and what it has yet to receive make up the rest of the reply. */
  ghost predicate Pos(sl: Slave, r: Reply, replid: Bytes, rest: Bytes) {
    && (sl.state != Streaming && sl.state != Error ==> sl.stream == [])
    && (sl.state == WaitFullresync || sl.state == RecvRdbHeader ==> !sl.rdbOpen)
    && match sl.state
    case WaitFullresync =>
      sl.input + rest == ReplyBytes(replid, r) && (r.head.ContinueHead? ==> sl.haveOffset && sl.replid == replid && r.head.offset == sl.offset)
    case RecvRdbHeader =>
      && (r.head.FullHead? || r.head.BrokenHead?) && r.head.offset == sl.offset && sl.haveOffset && sl.replid == replid
      && (r.head.FullHead? ==> sl.input + rest == LengthLine(|r.head.image|) + r.head.image + Tail(r))
      && (r.head.BrokenHead? ==> sl.input + rest == LengthLine(r.head.length) + r.err)
    case RecvRdbBody =>
      && (r.head.FullHead? || r.head.BrokenHead?) && r.head.offset == sl.offset && sl.haveOffset && sl.replid == replid
      && (r.head.FullHead? ==> FileOf(sl) + sl.input + rest == r.head.image + Tail(r)
                               && |FileOf(sl)| + sl.rdbLeft == |r.head.image|)
      && (r.head.BrokenHead? ==> FileOf(sl) + sl.input + rest == r.err && |FileOf(sl)| + sl.rdbLeft == r.head.length)
    case RecvBacklogHeader => r.head.FullHead? && r.head.offset == sl.offset && sl.haveOffset && sl.replid == replid && sl.input + rest == Tail(r)
    case RecvBacklogBody =>
      && r.head.FullHead? && r.head.offset == sl.offset && sl.haveOffset && sl.replid == replid && r.head.backlog.Some?
      && sl.backlog + sl.input + rest == r.data && |sl.backlog| + sl.backlogLeft == r.head.backlog.value
    case Streaming =>
      && (r.head.ContinueHead? || (r.head.FullHead? && r.head.backlog.Some?)) && sl.haveOffset && sl.replid == replid
      && r.head.offset <= sl.offset <= r.head.offset + |r.data|
      && sl.stream + sl.input + rest == r.data[sl.offset - r.head.offset..]
    case Error => true
    case Init => false
  }

  /** Past the announcement of a full resync, the recorded moment is the connection's start, and
      until its snapshot has been loaded the data does not belong to that moment. */
  ghost predicate AtStart(s: Sys, fd: Fd) {
    && (s.sl.state in {RecvRdbHeader, RecvRdbBody, RecvBacklogHeader, RecvBacklogBody} ==> fd in s.marks && s.at == s.marks[fd])
    && (s.sl.state in {RecvRdbHeader, RecvRdbBody} ==> s.loaded.None?)
  }

  ghost predicate LinkInv(s: Sys) {
    match s.link
    case None => s.sl.state == Init
    case Some(l) =>
      && l.fd in s.m.out && l.got <= |BytesOn(s, l.fd)|
      && (!l.asked ==> s.m.out[l.fd] == SILENT && s.sl.state == WaitFullresync && l.fd !in s.m.slaves)
      && Pos(s.sl, s.m.out[l.fd], s.m.replid, BytesOn(s, l.fd)[l.got..])
      && AtStart(s, l.fd)
  }

  /** What is left of the feed leads the replica where the feed since the start offset leads the loaded
      snapshot; and a replica waiting at the fork has the earlier start, any other the later one. */
  ghost predicate LoadedOk(s: Sys, l: Loaded) {
    && Coherent(s.sl.db.index) && SnapOk(s, l.snap) && MarkOk(s, l.start) && l.start.epoch == s.at.epoch
    && Apart(l.waited, l.start, l.snap.mark)
    && (s.at.k <= |s.fed| ==> Effects(ViewOf(s.sl.db), s.fed[s.at.k..]) == Effects(ViewOf(l.snap.db), s.fed[l.start.k..]))
  }

  /** The replica's offset is one of this master's. */
  predicate Ours(s: Sys) { s.sl.haveOffset && s.sl.replid == s.m.replid }

  ghost predicate SlaveInv(s: Sys) {
    && Expecting(s.sl)
    && (Ours(s) ==> MarkOk(s, s.at) && s.sl.offset == Off(s.fed, s.at.k))
    && (s.loaded.Some? ==> Ours(s) && LoadedOk(s, s.loaded.value))
  }

  /** A load the replica was waiting for at the fork. */
  predicate Trusted(s: Sys) { s.loaded.Some? && s.loaded.value.waited }

  ghost predicate Inv(s: Sys) {
    GapFree(s.m) && LogInv(s) && MasterInv(s) && LinkInv(s) && SlaveInv(s)
  }
}
