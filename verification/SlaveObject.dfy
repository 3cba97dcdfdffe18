/** ReplicationSlave as an object: its fields, the OnReadable loop and what it does to the stores. */
module SlaveObjects {
  import opened ByteStrings
  import opened Commands
  import opened VNodeStorages
  import opened VNodeIndexes
  import opened Databases
  import opened Frames
  import opened Snapshots
  import opened ReplicationSlaves
  import opened SnapshotManagers
  import opened Servers
  import Replication
  import Resp

  const IN_PATH: Bytes := [116, 109, 112, 47, 114, 101, 112, 108, 45, 105, 110, 46, 114, 100, 98]   // "tmp/repl-in.rdb"

  class ReplicationSlave {
    const server: Server
    const snapshot: SnapshotManager
    var state: State
    var input: Bytes
    var tmp: Option<Bytes>      // the file being received, if it is there
    var rdbOpen: bool
    var rdbLeft: nat
    var backlog: Bytes
    var backlogLeft: nat
    var stream: Bytes
    var replid: Bytes
    var offset: nat
    var haveOffset: bool

    ghost function Model(): Slave
      reads this, server, server.kv, server.index, server.index.storage, server.index.lru
    {
      Slave(state, input, tmp, rdbOpen, rdbLeft, backlog, backlogLeft, stream, replid, offset, haveOffset, server.Data())
    }

    ghost predicate Valid()
      reads this, server, server.kv, server.index, server.index.storage, server.index.lru, snapshot
    {
      server.index.Valid() && snapshot.index == server.index && snapshot.kv == server.kv
    }

    constructor (server: Server, snapshot: SnapshotManager)
      requires server.index.Valid() && snapshot.index == server.index && snapshot.kv == server.kv
      ensures Valid() && this.server == server && this.snapshot == snapshot
      ensures Model() == Slave(Init, [], None, false, 0, [], 0, [], [], 0, false, server.Data())
    {
      this.server, this.snapshot := server, snapshot;
      state, input, tmp, rdbOpen, rdbLeft := Init, [], None, false, 0;
      backlog, backlogLeft, stream, replid, offset, haveOffset := [], 0, [], [], 0, false;
    }

    method Fail()
      modifies this`state, this`rdbOpen
      ensures state == Error && !rdbOpen
    {
      state := Error;
      rdbOpen := false;
    }

    method AdvanceOffset(n: nat)
      modifies this`offset, this`haveOffset
      ensures offset == old(offset) + n && haveOffset == (old(haveOffset) || n > 0)
    {
      if n == 0 {
        return;
      }
      offset := offset + n;
      haveOffset := true;
    }

    /** The data, the replication id, the offset and the received file survive a lost link. */
    method ResetLink()
      modifies this
      ensures Model() == Replication.ResetLink(old(Model())).(input := [])
    {
      input, rdbOpen, backlog, stream, rdbLeft, backlogLeft, state := [], false, [], [], 0, 0, Init;
    }

    method MemChr(d: Bytes, b: byte, from: nat) returns (r: Option<nat>)
      ensures r == Find(d, b, from)
    {
      var i := from;
      while i < |d|
        invariant from <= i && Find(d, b, i) == Find(d, b, from)
        decreases |d| - i
      {
        if d[i] == b {
          return Some(i);
        }
        i := i + 1;
      }
      return None;
    }

    // ---- lines -----------------------------------------------------------------------------------------

    method ConsumeSimpleString() returns (text: Option<Bytes>)
      modifies this`input, this`state, this`rdbOpen
      ensures match SimpleString(old(input))
              case Pending => text == None && input == old(input) && state == old(state) && rdbOpen == old(rdbOpen)
              case Broken(left) => text == None && input == left && state == Error && !rdbOpen
              case Got(t, rest) => text == Some(t) && input == rest && state == old(state) && rdbOpen == old(rdbOpen)
    {
      if |input| < 3 {
        return None;
      }
      var end := MemChr(input, LF, 0);
      if input[0] == MINUS {
        if end.None? {
          return None;
        }
        Fail();
        input := input[end.value + 1..];
        return None;
      }
      if input[0] != PLUS {
        Fail();
        return None;
      }
      if end.None? || input[end.value - 1] != CR {
        return None;
      }
      text := Some(input[1..end.value - 1]);
      input := input[end.value + 1..];
    }

    method TryConsumeBulkHeader() returns (len: Option<int>)
      modifies this`input, this`state, this`rdbOpen
      ensures !BulkHeader(old(input)).Broken?
      ensures match BulkHeader(old(input))
              case Got(text, rest) =>
                && len == LeadingInt(text)
                && (if len.Some? then input == rest && state == old(state) && rdbOpen == old(rdbOpen)
                    else input == old(input) && state == Error && !rdbOpen)
              case _ => len == None && input == old(input) && state == old(state) && rdbOpen == old(rdbOpen)
    {
      if |input| < 4 || input[0] != DOLLAR {
        return None;
      }
      var end := MemChr(input, LF, 0);
      if end.None? || input[end.value - 1] != CR {
        return None;
      }
      len := LeadingInt(input[1..end.value]);
      if len.None? {
        Fail();
        return;
      }
      input := input[end.value + 1..];
    }

    /** +CONTINUE, or +FULLRESYNC with the id and the cut offset, which are recorded at once. */
    method HandleSyncReply(reply: Bytes) returns (ok: bool)
      modifies this`state, this`replid, this`offset, this`haveOffset, this`rdbOpen
      ensures Round(Model(), ok) == ReplicationSlaves.HandleSyncReply(old(Model()), reply)
    {
      hide WholeUnsigned, Find;
      if reply == CONTINUE {
        state := Streaming;
        return true;
      }
      if !(FULLRESYNC <= reply) {
        Fail();
        return false;
      }
      var rest := reply[|FULLRESYNC|..];
      var sp := MemChr(rest, SPACE, 0);
      if sp.None? || sp.value == 0 || sp.value + 1 >= |rest| {
        Fail();
        return false;
      }
      replid := rest[..sp.value];
      var cut := WholeUnsigned(rest[sp.value + 1..]);
      if cut.None? {
        Fail();
        return false;
      }
      offset := cut.value;
      haveOffset := true;
      state := RecvRdbHeader;
      return true;
    }

    // ---- the snapshot ------------------------------------------------------------------------------------

    /** The first chunk truncates the file. */
    method WriteRdbChunk(bytes: Bytes)
      modifies this`tmp, this`rdbOpen
      ensures rdbOpen && tmp == Some((if old(rdbOpen) && old(tmp).Some? then old(tmp).value else []) + bytes)
    {
      if !rdbOpen || tmp.None? {
        tmp := Some([]);
        rdbOpen := true;
      }
      tmp := Some(tmp.value + bytes);
    }

    /** The file is closed, renamed and loaded; it is gone from its old name even if it does not load. */
    method FinishRdbAndLoad() returns (ok: bool, ghost hint: Walk)
      requires Valid() && state == RecvRdbBody
      modifies this, snapshot, server.kv, server.index, server.index.storage, server.index.lru
      ensures Valid()
      ensures Round(Model(), ok) == FinishRdb(old(Model()), hint)
    {
      hide LoadPath;
      hint := Walk([], []);
      rdbOpen := false;
      if tmp.None? {
        Fail();
        return false, hint;
      }
      snapshot.disk := snapshot.disk[IN_PATH := tmp.value];
      tmp := None;
      ok, hint := snapshot.LoadFromPath(IN_PATH);
      if !ok {
        Fail();
        return;
      }
      state := RecvBacklogHeader;
    }

    // ---- the stream ------------------------------------------------------------------------------------------

    /** Applies every whole frame. On failure nothing counts as consumed, whatever was applied. */
    method ConsumeStreamFrames(bytes: Bytes) returns (ok: bool, left: Bytes, consumed: nat)
      requires Valid()
      modifies server.kv, server.index, server.index.storage, server.index.lru
      ensures Valid()
      ensures Consumed(ok, server.Data(), consumed) == ConsumeStream(old(server.Data()), bytes)
      ensures consumed <= |bytes| && left == bytes[consumed..] && (!ok ==> consumed == 0)
    {
      hide Apply, SplitOf, RunTokens, Resp.Decode, FromTokens, VNodeIndex.Valid;
      ghost var db := server.Data();
      var off := 0;
      assert bytes[0..] == bytes;
      ConsumeBegins(db, bytes);
      while off < |bytes|
        invariant Valid() && off <= |bytes|
        invariant Consuming(db, bytes, server.Data(), off)
        decreases |bytes| - off
      {
        ghost var now := server.Data();
        var frame := Resp.DecodeArrayOfBulk(bytes[off..]);
        ConsumeNext(db, bytes, now, off);
        if frame == Resp.NeedMore {
          return true, bytes[off..], off;
        }
        if frame == Resp.Malformed {
          return false, bytes, 0;
        }
        match FromTokens(frame.tokens) {
          case Refused(_) =>
            return false, bytes, 0;
          case Other(_) =>
            return false, bytes, 0;
          case Write(c) =>
            var applied, done, reply := server.ChangeData(c);
            if !applied {
              return false, bytes, 0;
            }
            off := off + frame.consumed;
        }
      }
      ConsumeEnds(db, bytes, server.Data());
      return true, bytes[off..], off;
    }

    method ApplyBacklog() returns (ok: bool)
      requires Valid()
      modifies this, server.kv, server.index, server.index.storage, server.index.lru
      ensures Valid() && Round(Model(), ok) == ReplicationSlaves.ApplyBacklog(old(Model()))
    {
      hide ConsumeStream;
      var left, consumed;
      ok, left, consumed := ConsumeStreamFrames(backlog);
      if !ok {
        Fail();
        return;
      }
      if left != [] {
        Fail();
        return false;
      }
      AdvanceOffset(consumed);
      backlog := [];
      state := Streaming;
    }

    method DrainStreaming() returns (ok: bool)
      requires Valid()
      modifies this, server.kv, server.index, server.index.storage, server.index.lru
      ensures Valid() && Model() == Drain(old(Model())).slave
    {
      hide ConsumeStream, VNodeIndex.Valid;
      stream := stream + input;
      input := [];
      var left, consumed;
      ok, left, consumed := ConsumeStreamFrames(stream);
      stream := left;
      if !ok {
        assert consumed == 0;
        Fail();
        return;
      }
      AdvanceOffset(consumed);
    }

    // ---- OnReadable -----------------------------------------------------------------------------------------------

    /** Rounds until one returns. Whatever was read at once is used up as far as it goes. */
    method OnReadable() returns (ghost hint: Walk)
      requires Valid() && Expecting(Model())
      modifies this, snapshot, server.kv, server.index, server.index.storage, server.index.lru
      ensures Valid() && Expecting(Model()) && Model() == Pump(old(Model()), hint)
    {
      hide Iterate, Expecting;
      hint := Walk([], []);
      ghost var start := Model();
      ghost var loaded := false;
      while true
        invariant Valid() && Expecting(start) && Expecting(Model())
        invariant if loaded then Rank(state) <= 3 && Pump(start, hint) == Pump(Model(), hint)
                  else forall h: Walk :: Pump(start, h) == Pump(Model(), h)
        decreases Rank(state), |input|
      {
        ghost var s := Model();
        var again;
        ghost var h, load;
        again, h, load := OneRound();
        if load {
          PumpStep(s, Model(), again, h);
          hint := h;
          loaded := true;
        } else {
          forall g: Walk ensures Iterate(s, g) == Round(Model(), again) {}
          PumpStepAny(s, Model(), again);
        }
        if !again {
          return;
        }
      }
    }

    method BacklogHeader() returns (again: bool)
      requires Valid() && state == RecvBacklogHeader
      modifies this
      ensures Valid() && Round(Model(), again) == BacklogHeaderRound(old(Model()))
    {
      hide BulkHeader, LeadingInt;
      var len := TryConsumeBulkHeader();
      if len.None? {
        return false;
      }
      if len.value < 0 {
        Fail();
        return false;
      }
      backlog, backlogLeft := [], len.value;
      state := if len.value == 0 then Streaming else RecvBacklogBody;
      again := true;
    }

    method BacklogBody() returns (again: bool)
      requires Valid() && state == RecvBacklogBody
      modifies this, server.kv, server.index, server.index.storage, server.index.lru
      ensures Valid() && Round(Model(), again) == BacklogBodyRound(old(Model()))
    {
      hide ConsumeStream, ReplicationSlaves.ApplyBacklog;
      if input == [] {
        return false;
      }
      var take := Least(|input|, backlogLeft);
      backlog, input, backlogLeft := backlog + input[..take], input[take..], backlogLeft - take;
      if backlogLeft == 0 {
        again := ApplyBacklog();
      } else {
        again := true;
      }
    }

    /** One pass of the loop. `load` says that the snapshot was loaded in it, walking its nodes as `hint` says. */
    method OneRound() returns (again: bool, ghost hint: Walk, ghost load: bool)
      requires Valid()
      modifies this, snapshot, server.kv, server.index, server.index.storage, server.index.lru
      ensures Valid()
      ensures if load then Iterate(old(Model()), hint) == Round(Model(), again)
              else forall h: Walk :: Iterate(old(Model()), h) == Round(Model(), again)
      ensures load ==> Rank(old(state)) >= 4 && Rank(state) <= 3
    {
      hide ConsumeStream, SimpleString, BulkHeader, LeadingInt, LoadPath, FinishRdb, ReplicationSlaves.HandleSyncReply, Drain,
        ReplicationSlaves.ApplyBacklog;
      hint, load := Walk([], []), false;
      match state {
        case WaitFullresync =>
          var text := ConsumeSimpleString();
          if text.None? {
            return false, hint, false;
          }
          again := HandleSyncReply(text.value);
        case RecvRdbHeader =>
          again, hint, load := RdbHeader();
        case RecvRdbBody =>
          again, hint, load := RdbBody();
        case RecvBacklogHeader =>
          again := BacklogHeader();
        case RecvBacklogBody =>
          again := BacklogBody();
        case Streaming =>
          DrainStops(Model());
          var ok := DrainStreaming();
          again := false;
        case _ =>
          again := false;
      }
    }

    method RdbHeader() returns (again: bool, ghost hint: Walk, ghost load: bool)
      requires Valid() && state == RecvRdbHeader
      modifies this, snapshot, server.kv, server.index, server.index.storage, server.index.lru
      ensures Valid()
      ensures if load then RdbHeaderRound(old(Model()), hint) == Round(Model(), again)
              else forall h: Walk :: RdbHeaderRound(old(Model()), h) == Round(Model(), again)
      ensures load ==> Rank(state) <= 3
    {
      hide BulkHeader, LeadingInt, LoadPath, FinishRdb;
      hint, load := Walk([], []), false;
      var len := TryConsumeBulkHeader();
      if len.None? {
        return false, hint, false;
      }
      if len.value < 0 {
        Fail();
        return false, hint, false;
      }
      rdbLeft := len.value;
      state := RecvRdbBody;
      if rdbLeft == 0 {
        FinishLowers(Model());
        again, hint := FinishRdbAndLoad();
        load := true;
      } else {
        again := true;
      }
    }

    method RdbBody() returns (again: bool, ghost hint: Walk, ghost load: bool)
      requires Valid() && state == RecvRdbBody
      modifies this, snapshot, server.kv, server.index, server.index.storage, server.index.lru
      ensures Valid()
      ensures if load then RdbBodyRound(old(Model()), hint) == Round(Model(), again)
              else forall h: Walk :: RdbBodyRound(old(Model()), h) == Round(Model(), again)
      ensures load ==> Rank(state) <= 3
    {
      hide LoadPath, FinishRdb;
      hint, load := Walk([], []), false;
      if input == [] {
        return false, hint, false;
      }
      ghost var s := Model();
      var take := Least(|input|, rdbLeft);
      WriteRdbChunk(input[..take]);
      input := input[take..];
      rdbLeft := rdbLeft - take;
      assert Model() == TakeRdb(s);
      if rdbLeft == 0 {
        FinishLowers(Model());
        again, hint := FinishRdbAndLoad();
        load := true;
      } else {
        again := true;
      }
    }
  }

  lemma FinishLowers(s: Slave)
    ensures forall h: Walk :: Rank(FinishRdb(s, h).slave.state) <= 3
  {
    hide LoadPath;
  }

  lemma DrainStops(s: Slave)
    ensures !Drain(s).again
  {
    hide ConsumeStream;
  }

  lemma PumpStep(s: Slave, t: Slave, again: bool, h: Walk)
    requires Expecting(s) && Iterate(s, h) == Round(t, again)
    ensures Expecting(t) && Pump(s, h) == (if again then Pump(t, h) else t)
    ensures again ==> Rank(t.state) < Rank(s.state) || (t.state == s.state && |t.input| < |s.input|)
  {
    hide Iterate, Expecting;
    IterateProgress(s, h);
  }

  lemma PumpStepAny(s: Slave, t: Slave, again: bool)
    requires Expecting(s) && forall h: Walk :: Iterate(s, h) == Round(t, again)
    ensures Expecting(t) && forall h: Walk :: Pump(s, h) == (if again then Pump(t, h) else t)
    ensures again ==> Rank(t.state) < Rank(s.state) || (t.state == s.state && |t.input| < |s.input|)
  {
    hide Iterate, Expecting;
    forall h: Walk ensures Expecting(t) && Pump(s, h) == (if again then Pump(t, h) else t) {
      PumpStep(s, t, again, h);
    }
    PumpStep(s, t, again, Walk([], []));
  }

  // ---- the loop over frames -----------------------------------------------------------------------------------------

  /** The first `off` bytes were whole frames, all applied; what follows decides how it ends. */
  ghost predicate Consuming(db: Db, bytes: Bytes, now: Db, off: nat)
    requires off <= |bytes|
  {
    var all, rest := SplitOf(bytes), SplitOf(bytes[off..]);
    var r, q := RunTokens(db, all.frames), RunTokens(now, rest.frames);
    all.bad == rest.bad && all.used == off + rest.used && r.end == q.end && r.db == q.db
  }

  lemma ConsumeBegins(db: Db, bytes: Bytes)
    ensures Consuming(db, bytes, db, 0)
  {
    hide SplitOf, RunTokens;
    assert bytes[0..] == bytes;
  }

  lemma ConsumeNext(db: Db, bytes: Bytes, now: Db, off: nat)
    requires off <= |bytes| && Consuming(db, bytes, now, off)
    ensures var frame := Resp.Decode(bytes[off..]);
            var all := ConsumeStream(db, bytes);
            if frame == Resp.NeedMore then all == Consumed(true, now, off)
            else if frame == Resp.Malformed then all == Consumed(false, now, 0)
            else
              && 0 < frame.consumed <= |bytes| - off
              && var q := FromTokens(frame.tokens);
                 if !q.Write? then all == Consumed(false, now, 0)
                 else if !Apply(now, q.cmd).ok then all == Consumed(false, Apply(now, q.cmd).db, 0)
                 else Consuming(db, bytes, Apply(now, q.cmd).db, off + frame.consumed)
  {
    hide SplitOf, RunTokens, Resp.Decode, FromTokens, Apply;
    SplitFirst(bytes[off..]);
    NothingRuns(now);
    var frame := Resp.Decode(bytes[off..]);
    if frame.Frame? {
      TokensFirst(now, frame.tokens, SplitOf(bytes[off..][frame.consumed..]).frames);
      assert bytes[off..][frame.consumed..] == bytes[off + frame.consumed..];
    }
  }

  lemma ConsumeEnds(db: Db, bytes: Bytes, now: Db)
    requires Consuming(db, bytes, now, |bytes|)
    ensures ConsumeStream(db, bytes) == Consumed(true, now, |bytes|)
  {
    hide SplitOf, RunTokens;
    assert bytes[|bytes|..] == [];
    EmptySplit();
    NothingRuns(now);
  }
}
