/** A replica that waits for its backlog for ever: exactly when, and a run that leads there. */
module ReplicationStuck {
  import opened ByteStrings
  import opened Commands
  import opened Views
  import opened VNodeIndexes
  import opened VNodeStorages
  import opened Databases
  import opened Frames
  import opened Mutations
  import opened ReplicationBacklogs
  import opened Snapshots
  import opened ReplicationSlaves
  import opened ReplicationMasters
  import opened Replication
  import opened ReplicationParser
  import opened ReplicationInvariants
  import opened ReplicationTheorems
  import opened ReplicationConvergence
  import opened ReplicationLimits
  import opened ReplicationLiveness
  import opened ReplicationStarts

  // ---- exactly when ---------------------------------------------------------------------------------------------

  /** The bytes at hand can never begin a backlog header: another first byte, or a line ended by a line
      feed alone. */
  predicate Hopeless(d: Bytes) {
    && d != []
    && (d[0] == DOLLAR && Find(d, LF, 0).Some? ==> d[Find(d, LF, 0).value - 1] != CR)
    && (d[0] == DOLLAR ==> Find(d, LF, 0).Some?)
  }

  lemma HopelessPends(d: Bytes, more: Bytes)
    requires Hopeless(d)
    ensures BulkHeader(d + more) == Pending
  {
    assert (d + more)[0] == d[0];
    if d[0] == DOLLAR {
      var i := Find(d, LF, 0).value;
      assert (d + more)[i] == LF;
      var j := Find(d + more, LF, 0).value;
      assert d[j] == LF;
    }
  }

  /** Bytes that complete a header. */
  function Completing(d: Bytes): Bytes {
    if d == [] then [DOLLAR, 48, CR, LF] else if Find(d, LF, 0).Some? then [0] else [CR, LF, 0]
  }

  lemma CompletedHeader(d: Bytes)
    requires !Hopeless(d)
    ensures BulkHeader(d + Completing(d)).Got?
  {
    var x := d + Completing(d);
    if d == [] {
      assert x == [DOLLAR, 48, CR, LF];
      assert Find(x, LF, 0) == Some(3) by {
        assert x[3] == LF && x[0] != LF && x[1] != LF && x[2] != LF;
      }
    } else {
      assert x[0] == d[0] == DOLLAR;
      if Find(d, LF, 0).Some? {
        var i := Find(d, LF, 0).value;
        assert x[i] == LF && x[i - 1] == CR;
        assert forall k | 0 <= k < i :: x[k] == d[k];
        assert Find(x, LF, 0) == Some(i);
      } else {
        assert x[|d|] == CR && x[|d| + 1] == LF;
        assert forall k | 0 <= k < |d| :: x[k] == d[k];
        assert Find(x, LF, 0) == Some(|d| + 1);
      }
    }
  }

  /** Past the backlog header there is no way back. */
  lemma {:induction false} PumpStaysPast(sl: Slave, hint: Walk)
    requires Expecting(sl) && Rank(sl.state) <= 2
    ensures Rank(Pump(sl, hint).state) <= 2
    decreases Rank(sl.state), |sl.input|
  {
    hide Iterate, Rank;
    IterateProgress(sl, hint);
    RoundStaysPast(sl, hint);
    if Iterate(sl, hint).again {
      PumpStaysPast(Iterate(sl, hint).slave, hint);
    }
  }

  lemma RoundStaysPast(sl: Slave, hint: Walk)
    requires Rank(sl.state) <= 2
    ensures Rank(Iterate(sl, hint).slave.state) <= 2
  {
    hide ConsumeStream, WaitRound, RdbHeaderRound, RdbBodyRound, BacklogHeaderRound;
  }

  /** A replica waiting for its backlog header never leaves that state, whatever arrives, if and only if what
      it has can never begin one. */
  lemma NeverLeaves(sl: Slave, hint: Walk)
    requires sl.state == RecvBacklogHeader
    ensures (forall more: Bytes :: Pump(Receive(sl, more), hint) == Receive(sl, more)) <==> Hopeless(sl.input)
  {
    if Hopeless(sl.input) {
      forall more: Bytes ensures Pump(Receive(sl, more), hint) == Receive(sl, more) {
        HopelessPends(sl.input, more);
      }
    } else {
      CompletedHeader(sl.input);
      Leaves(Receive(sl, Completing(sl.input)), hint);
    }
  }

  lemma Leaves(sl: Slave, hint: Walk)
    requires sl.state == RecvBacklogHeader && BulkHeader(sl.input).Got?
    ensures Pump(sl, hint).state != RecvBacklogHeader
  {
    hide BulkHeader, LeadingInt;
    var r := Iterate(sl, hint);
    IterateProgress(sl, hint);
    if r.again {
      PumpStaysPast(r.slave, hint);
    }
  }

  // ---- three rounds through a snapshot -----------------------------------------------------------------------------

  /** Announcement, length, snapshot: with all of it at hand, three rounds load it and leave what follows. */
  lemma FullRounds(sl: Slave, replid: Bytes, offset: nat, image: Bytes, tail: Bytes, hint: Walk)
    requires PlainId(replid) && sl.state == WaitFullresync && !sl.rdbOpen && image != [] && LoadPath(image, sl.db, hint).ok
    requires sl.input == FullLine(replid, offset) + LengthLine(|image|) + image + tail
    ensures var a := Iterate(sl, hint).slave;
            var b := Iterate(a, hint).slave;
            var c := Iterate(b, hint).slave;
            c.state == RecvBacklogHeader && c.input == tail && c.db == LoadPath(image, sl.db, hint).db
  {
    hide SimpleString, HandleSyncReply, FullLine, LengthLine, PlainId, FullText, LoadPath, BulkHeader, LeadingInt, FinishRdb;
    var x := LengthLine(|image|) + image + tail;
    assert sl.input == FullLine(replid, offset) + x;
    FullLineIs(replid, offset, x);
    FullTextParses(sl.(input := x), replid, offset);
    var a := Iterate(sl, hint).slave;
    assert a == sl.(input := x, replid := replid, offset := offset, haveOffset := true, state := RecvRdbHeader);
    assert x == LengthLine(|image|) + (image + tail);
    BulkHeaderOf(|image|, image + tail);
    LeadingDecimal(|image|);
    var b := Iterate(a, hint).slave;
    assert b == a.(input := image + tail, rdbLeft := |image|, state := RecvRdbBody);
    BodyAtHand(b, image, tail, hint);
  }

  lemma BodyAtHand(b: Slave, image: Bytes, tail: Bytes, hint: Walk)
    requires b.state == RecvRdbBody && !b.rdbOpen && image != [] && b.rdbLeft == |image| && b.input == image + tail
    requires LoadPath(image, b.db, hint).ok
    ensures var c := Iterate(b, hint).slave;
            c.state == RecvBacklogHeader && c.input == tail && c.db == LoadPath(image, b.db, hint).db
  {
    hide LoadPath;
    assert b.input[..|image|] == image && b.input[|image|..] == tail;
    assert [] + image == image;
    assert TakeRdb(b).tmp == Some(image);
  }

  // ---- the run -------------------------------------------------------------------------------------------------------

  /** An oversize frame empties the ring. */
  lemma Oversize(base: nat, tip: nat, cap: nat, n: nat)
    requires base <= tip && n > cap
    ensures BaseAfterFeed(base, tip, cap, n) == tip + n
  {}

  /** With a start left over from an abandoned full resync and a frame larger than the ring fed since, the
      start is gone when the snapshot has been sent. The replica is told "-ERR backlog lost", loads its
      snapshot, and then waits for a backlog header for ever; the master has forgotten it. */
  lemma LostBacklogRun(s: Sys, a: Fd, b: Fd, d: Fd, c: Cmd, escaped: Cmd, o: Orders, p: Orders, hint: Walk)
      returns (ss: seq<Sys>, es: seq<Event>)
    requires Inv(s) && s.m.slaves == map[] && !s.m.saveStarted && s.m.child == Idle && s.link.None? && !Ours(s)
    requires {a, b} <= s.m.conns && a != b && d !in s.m.out && OrdersOf(o, s.db)
    requires Apply(s.db, c).done && Apply(Apply(s.db, c).db, escaped).done && |Encode(c)| > s.m.cap
    requires Sound(Snap(Apply(Apply(s.db, c).db, escaped).db, p, Mark(|s.fed| + 1, s.epoch + 1)))
    ensures |es| == 14 && Steps(ss, es) && ss[0] == s && Inv(ss[14])
    ensures var t := ss[14];
            && t.link.Some? && t.link.value.fd == d && d !in t.m.slaves && d in t.m.out && t.link.value.got == |BytesOn(t, d)|
            && t.sl.state == RecvBacklogHeader && t.sl.input == BACKLOG_LOST && Hopeless(t.sl.input)
  {
    hide Inv, Waiting, ReplyBytes, Steps, Encode, Apply, OrdersOf, ImageFits, Sound, Iterate, BaseAfterFeed, Retains, BACKLOG_LOST,
      Hopeless;
    var start := |s.m.log|;
    var db := Apply(Apply(s.db, c).db, escaped).db;
    SoundOrders(Snap(db, p, Mark(|s.fed| + 1, s.epoch + 1)));
    var w, first, events := StaleAsk(s, a, b, d, c, escaped, o, p);
    Oversize(s.m.base, start, s.m.cap, |Encode(c)|);
    NotRetained(w.m, start);
    var second, served := ServedRun(w, d, start, Now(s));
    LastOf(first, events);
    LastOf(second, served);
    var v := second[3];
    WaitingFacts(w, d, start, Now(s));
    assert Sound(w.child) by { SoundAnyMark(w.child, Mark(|s.fed| + 1, s.epoch + 1)); }
    var third, rounds := ThroughSnapshot(w, v, d, start, hint);
    LastOf(third, rounds);
    StepsConcat(first, events, second, served);
    LastShared(first, second);
    StepsConcat(first + second[1..], events + served, third, rounds);
    LastShared(first + second[1..], third);
    ss, es := first + second[1..] + third[1..], events + served + rounds;
    LostLine();
  }

  lemma WaitingFacts(s: Sys, d: Fd, start: nat, mark: Mark)
    requires Waiting(s, d, start, mark)
    ensures s.link == Some(Link(d, 0, true)) && s.sl.state == WaitFullresync && d in s.m.slaves && s.m.slaves[d] == Peer(WaitRdb, start)
  {}

  lemma LostLine()
    ensures Hopeless(BACKLOG_LOST)
  {}

  lemma NotRetained(m: Master, start: nat)
    requires start < m.base
    ensures !Retains(m, start)
  {}

  /** The three rounds of a replica that has read its snapshot and the error line behind it. */
  lemma ThroughSnapshot(w: Sys, v: Sys, d: Fd, start: nat, hint: Walk) returns (ss: seq<Sys>, es: seq<Event>)
    requires Inv(w) && Inv(v) && w.link == Some(Link(d, 0, true)) && w.sl.state == WaitFullresync
    requires d in w.m.slaves && w.m.slaves[d] == Peer(WaitRdb, start) && w.m.child.Saving? && Sound(w.child)
    requires d in v.m.out && v.m.out[d] == Reply(FullHead(start, w.m.child.image, None), [], BACKLOG_LOST) && d !in v.m.slaves
    requires v.link == Some(Link(d, |BytesOn(v, d)|, true)) && v.sl == Receive(w.sl, BytesOn(v, d))
    ensures |es| == 3 && Steps(ss, es) && ss[0] == v && Inv(ss[3])
    ensures var t := ss[3];
            && t.link == v.link && t.m == v.m && t.sl.state == RecvBacklogHeader && t.sl.input == BACKLOG_LOST
  {
    hide Inv, ReplyBytes, Sound, Iterate, LoadPath, Image, OrdersOf, RoundStep, Coherent, FullLine, LengthLine, PlainId, BACKLOG_LOST;
    WaitingEmpty(w, d, start);
    ChildImage(w);
    SnapshotBytes(v, d, start, w.m.child.image);
    LoadsSnapshot(w.child, v.sl.db, hint);
    PlainReplid(v);
    FullRounds(v.sl, v.m.replid, start, w.m.child.image, BACKLOG_LOST, hint);
    var x := OneRound(v, hint);
    var y := OneRound(x, hint);
    var z := OneRound(y, hint);
    var e := SlaveRound(hint);
    ThreeSteps(v, e, x, e, y, e, z);
    ss, es := [v, x, y, z], [e, e, e];
  }

  lemma OneRound(s: Sys, hint: Walk) returns (t: Sys)
    requires Inv(s) && s.link.Some?
    ensures Follows(s, SlaveRound(hint), t) && Inv(t) && t.sl == Iterate(s.sl, hint).slave && t.link == s.link && t.m == s.m
  {
    hide Inv, Iterate;
    InvGap(s);
    GapBase(s.m);
    RoundIs(s, hint);
    FollowsStep(s, SlaveRound(hint));
    StepKeeps(s, SlaveRound(hint));
    PlainRoundLink(s, hint);
    t := Step(s, SlaveRound(hint));
  }

  lemma PlainReplid(s: Sys)
    requires Inv(s)
    ensures PlainId(s.m.replid)
  {
    hide GapFree, MasterInv, LinkInv, SlaveInv, Coherent, ViewOf, Effects;
  }

  /** A waiter has heard nothing, so the replica behind it has nothing at hand. */
  lemma WaitingEmpty(w: Sys, d: Fd, start: nat)
    requires Inv(w) && w.link == Some(Link(d, 0, true)) && w.sl.state == WaitFullresync
    requires d in w.m.slaves && w.m.slaves[d] == Peer(WaitRdb, start)
    ensures w.sl.input == [] && !w.sl.rdbOpen
  {
    hide LogInv, MasterInv, SlaveInv, ReplyOk;
    assert PeerOk(w.m.slaves[d], w.m.out[d], w.m.log);
  }

  lemma ChildImage(w: Sys)
    requires Inv(w) && w.m.child.Saving? && Sound(w.child)
    ensures OrdersOf(w.child.orders, w.child.db) && w.m.child.image == Image(w.child.db, w.child.orders)
    ensures Coherent(w.child.db.index) && w.m.child.image != [] && PlainId(w.m.replid)
  {
    hide GapFree, LinkInv, SlaveInv, HeadOk, OrdersOf, Coherent, ViewOf, Effects, Image, ImageFits;
    ImageSize(w.child.db, w.child.orders);
  }

  lemma SnapshotBytes(v: Sys, d: Fd, start: nat, image: Bytes)
    requires d in v.m.out && v.m.out[d] == Reply(FullHead(start, image, None), [], BACKLOG_LOST)
    ensures [] + BytesOn(v, d) == FullLine(v.m.replid, start) + LengthLine(|image|) + image + BACKLOG_LOST
  {
    hide FullLine, LengthLine, BACKLOG_LOST;
  }
}
