/** The server's write path as objects: ApplyMutation over the stores, the append-only file and the
    replication master, and WalManager's replay. */
module Servers {
  import opened ByteStrings
  import opened Commands
  import opened VNodeStorages
  import opened LruOrders
  import opened VNodeIndexes
  import opened Databases
  import opened Frames
  import opened Mutations
  import opened Lookups
  import opened ReplicationMasters
  import opened MasterObjects
  import KvStores
  import Resp

  datatype WalStatus = WalOk | NotConfigured | IoError | WalError

  /** The writer as its manager sees it: what it has accepted, and what it said to each frame. Whether it accepts is
      its own affair: see the two writers. */
  class AofWriter {
    var file: Bytes
    ghost var said: seq<bool>

    constructor (file: Bytes)
      ensures this.file == file && said == []
    {
      this.file, said := file, [];
    }

    /** A writer that has failed for good accepts nothing more. */
    method Failed() returns (failed: bool)
      modifies this`said
      ensures said == old(said) + (if failed then [false] else [])
    {
      failed := *;
      if failed {
        said := said + [false];
      } else {
        assert said + [] == said;
      }
    }

    method Enqueue(frame: Bytes) returns (ok: bool)
      modifies this
      ensures said == old(said) + [ok] && file == if ok then old(file) + frame else old(file)
    {
      ok := *;
      said := said + [ok];
      if ok {
        file := file + frame;
      }
    }
  }

  class WalManager {
    const enabled: bool
    const writer: AofWriter

    constructor (enabled: bool, writer: AofWriter)
      ensures this.enabled == enabled && this.writer == writer
    {
      this.enabled, this.writer := enabled, writer;
    }

    /** A frame is appended exactly if the writer says so. */
    method AppendFrame(frame: Bytes) returns (st: WalStatus)
      modifies writer
      ensures st == NotConfigured <==> !enabled
      ensures !enabled ==> writer.said == old(writer.said) && writer.file == old(writer.file)
      ensures enabled && frame != [] ==> writer.said == old(writer.said) + [st == WalOk]
      ensures writer.file == if st == WalOk then old(writer.file) + frame else old(writer.file)
      ensures enabled && frame == [] ==> st != WalOk
    {
      if !enabled {
        return NotConfigured;
      }
      var failed := writer.Failed();
      if failed {
        return IoError;
      }
      if frame == [] {
        return WalError;
      }
      var accepted := writer.Enqueue(frame);
      if !accepted {
        var broken: bool := *;
        return if broken then IoError else WalError;
      }
      return WalOk;
    }
  }

  // ---- which commands reached the file and the replicas --------------------------------------------------------

  /** The feed grew by the first commands of `kept`; by all of them if a replica is still there. */
  ghost predicate Reached(before: Bytes, after: Bytes, kept: seq<Cmd>, still: bool) {
    exists n: nat | n <= |kept| :: after == before + EncodeAll(kept[..n]) && (still ==> n == |kept|)
  }

  lemma FedNothing(log: Bytes, still: bool)
    ensures Reached(log, log, [], still)
  {
    var none: seq<Cmd> := [];
    assert none[..0] == none;
    assert log == log + EncodeAll(none[..0]);
  }

  lemma FedOne(before: Bytes, after: Bytes, c: Cmd, was: bool, still: bool)
    requires after == before + (if was then Encode(c) else []) && (still ==> was)
    ensures Reached(before, after, [c], still)
  {
    hide Encode;
    EncodeOne(c);
    var n := if was then 1 else 0;
    assert [c][..n] == if was then [c] else [];
    assert after == before + EncodeAll([c][..n]);
  }

  lemma EncodeOne(c: Cmd)
    ensures EncodeAll([c]) == Encode(c) && EncodeAll([]) == []
  {
    hide Encode;
    EncodeAllSnoc([], c);
    assert [] + [c] == [c];
    assert [] + Encode(c) == Encode(c);
  }

  lemma FedMore(a: Bytes, b: Bytes, c: Bytes, k: seq<Cmd>, l: seq<Cmd>, mid: bool, still: bool)
    requires Reached(a, b, k, mid) && Reached(b, c, l, still) && (still ==> mid) && (!mid ==> c == b)
    ensures Reached(a, c, k + l, still)
  {
    hide EncodeAll;
    var n: nat :| n <= |k| && b == a + EncodeAll(k[..n]) && (mid ==> n == |k|);
    var m: nat :| m <= |l| && c == b + EncodeAll(l[..m]) && (still ==> m == |l|);
    if mid {
      assert (k + l)[..n + m] == k[..n] + l[..m];
      EncodeAllConcat(k[..n], l[..m]);
      assert c == a + EncodeAll((k + l)[..n + m]);
    } else {
      assert (k + l)[..n] == k[..n];
    }
  }

  // ---- the server ------------------------------------------------------------------------------------------------

  /** What the append-only file holds, what its writer has said to each frame, what has been fed, and whether a replica is there. */
  datatype Trail = Trail(file: Bytes, said: seq<bool>, log: Bytes, replica: bool)

  /** The commands of `writes` that were logged: all, unless the last one's append failed. */
  function Kept(writes: seq<Cmd>, appended: bool): seq<Cmd> {
    if appended || writes == [] then writes else writes[..|writes| - 1]
  }

  lemma KeptConcat(a: seq<Cmd>, b: seq<Cmd>, appended: bool)
    ensures b != [] || appended ==> Kept(a + b, appended) == a + Kept(b, appended)
  {
    if b != [] {
      assert (a + b)[..|a + b| - 1] == a + b[..|b| - 1];
    }
  }

  /** The writer was asked once for each write; all were appended if it said yes each time, and otherwise the last
      write is the first it refused. */
  ghost predicate Verdicts(on: bool, said: seq<bool>, after: seq<bool>, n: nat, appended: bool) {
    if !on then after == said && appended
    else
      && |after| == |said| + n && said <= after
      && (forall i | |said| <= i < |after| - 1 :: after[i])
      && (appended <==> n > 0 ==> after[|after| - 1])
  }

  /** The file and the feed grew by the commands that were logged, the feed as long as a replica was there. */
  ghost predicate Traced(on: bool, before: Trail, after: Trail, writes: seq<Cmd>, appended: bool) {
    var kept := Kept(writes, appended);
    && after.file == before.file + (if on then EncodeAll(kept) else [])
    && Verdicts(on, before.said, after.said, |writes|, appended)
    && Reached(before.log, after.log, kept, after.replica) && (after.replica ==> before.replica)
    && (!before.replica ==> after.log == before.log)
  }

  /** One command on its way to the file and then to the feed. */
  predicate Recorded(on: bool, before: Trail, after: Trail, c: Cmd, ok: bool) {
    && after.said == before.said + (if on then [ok] else []) && (!on ==> ok)
    && after.file == before.file + (if on && ok then Encode(c) else [])
    && after.log == before.log + (if ok && before.replica then Encode(c) else [])
    && (after.replica ==> before.replica)
  }

  lemma NothingTraced(on: bool, t: Trail)
    ensures Traced(on, t, t, [], true)
  {
    FedNothing(t.log, t.replica);
  }

  lemma RecordTraced(on: bool, before: Trail, after: Trail, c: Cmd, ok: bool)
    requires Recorded(on, before, after, c, ok)
    ensures Traced(on, before, after, [c], ok)
  {
    hide Reached, Encode, EncodeAll;
    EncodeOne(c);
    assert Kept([c], ok) == if ok then [c] else [];
    if ok {
      FedOne(before.log, after.log, c, before.replica, after.replica);
    } else {
      FedNothing(before.log, after.replica);
    }
  }

  lemma MoreVerdicts(on: bool, said: seq<bool>, mid: seq<bool>, after: seq<bool>, n: nat, k: nat, appended: bool)
    requires Verdicts(on, said, mid, n, true) && Verdicts(on, mid, after, k, appended)
    ensures Verdicts(on, said, after, n + k, appended)
  {}

  lemma TracedMore(on: bool, a: Trail, b: Trail, c: Trail, k: seq<Cmd>, l: seq<Cmd>, appended: bool)
    requires Traced(on, a, b, k, true) && Traced(on, b, c, l, appended)
    requires l != [] || appended
    ensures Traced(on, a, c, k + l, appended)
  {
    hide Reached, EncodeAll, Verdicts, Kept;
    KeptWhole(k);
    KeptConcat(k, l, appended);
    MoreVerdicts(on, a.said, b.said, c.said, |k|, |l|, appended);
    FedMore(a.log, b.log, c.log, k, Kept(l, appended), b.replica, c.replica);
    EncodeAllConcat(k, Kept(l, appended));
  }

  lemma KeptWhole(k: seq<Cmd>)
    ensures Kept(k, true) == k
  {}

  class Server {
    const index: VNodeIndex
    const kv: KvStores.KvStore
    const wal: WalManager
    const repl: ReplicationMaster

    ghost function Data(): Db
      reads kv, index, index.storage, index.lru
    {
      Db(kv.pairs, index.Model())
    }

    /** How far writes have got. */
    ghost function Trace(): Trail
      reads wal.writer, repl, repl.backlog
    {
      Trail(wal.writer.file, wal.writer.said, repl.backlog.log, repl.slaves != map[])
    }

    ghost predicate Valid()
      reads this, kv, index, index.storage, index.lru, repl, repl.backlog, repl.backlog.buf
    {
      index.Valid() && Coherent(index.Model()) && repl.Valid()
    }

    constructor (index: VNodeIndex, kv: KvStores.KvStore, wal: WalManager, repl: ReplicationMaster)
      requires index.Valid() && Coherent(index.Model()) && repl.Valid()
      ensures Valid() && this.index == index && this.kv == kv && this.wal == wal && this.repl == repl
    {
      this.index, this.kv, this.wal, this.repl := index, kv, wal, repl;
    }

    /** The tail of a client write: the frame is encoded once, appended, then fed. */
    method Record(c: Cmd) returns (ok: bool)
      requires repl.Valid()
      modifies wal.writer, repl`slaves, repl`active, repl`conns, repl`wire, repl`replies, repl.backlog, repl.backlog.buf
      ensures repl.Valid()
      ensures Recorded(wal.enabled, old(Trace()), Trace(), c, ok)
    {
      var slaves := repl.slaves != map[];
      if wal.enabled || slaves {
        var frame := EncodeWriteCommand(c);
        if wal.enabled {
          var st := wal.AppendFrame(frame);
          if st != WalOk {
            return false;
          }
        }
        if slaves {
          var slow: set<Fd> := *;
          Masters(repl.Model());
          repl.FeedEncodedFrame(frame, slow);
        }
      }
      return true;
    }

    /** The switch on the command: what it does to the stores. For a write that comes from a file or a
        master this is all there is. */
    method ChangeData(c: Cmd) returns (ok: bool, done: bool, reply: int)
      requires index.Valid()
      modifies kv, index, index.storage, index.lru
      ensures index.Valid() && (Coherent(old(index.Model())) ==> Coherent(index.Model()))
      ensures Applied(ok, done, Data()) == Apply(old(Data()), c) && (done ==> ok)
      ensures Coherent(old(index.Model())) ==> reply == EntriesGone(c, old(Data()), Data())
    {
      hide Coherent, SetNode, DelNode, EntriesGone;
      if Coherent(index.Model()) {
        RightReply(Data(), c);
      }
      reply := 0;
      match c {
        case Set(key, element) =>
          ok := kv.Set(key, element);
          done := ok;
        case Del(key) =>
          var found;
          ok, found := kv.Del(key);
          done := ok && found;
          if done {
            reply := 1;
          }
        case Vset(vector, userKey, question, answer) =>
          var st := index.Set(vector, userKey, question, answer);
          ok := st == Okay;
          done := ok;
        case Vdel(userKey) =>
          var st := index.Del(userKey);
          ok := st == Okay || st == NotFound;
          done := st == Okay;
          if done {
            reply := 1;
          }
      }
    }

    /** A write from a client, or one that a replay or a master hands on. Only a client's evicts, and
        only a client's is logged and fed. If an append fails, the data has changed by one command
        that neither the file nor any replica has. */
    method ApplyMutation(c: Cmd, client: bool) returns (ok: bool, reply: int, ghost writes: seq<Cmd>, ghost appended: bool)
      requires Valid()
      modifies kv, index, index.storage, index.lru
      modifies wal.writer, repl`slaves, repl`active, repl`conns, repl`wire, repl`replies, repl.backlog, repl.backlog.buf
      ensures Valid()
      ensures client ==> Outcome(old(Data()), Data(), Client(old(Data()), index.maxEntries, c), ok, writes, appended)
      ensures !client ==> ok == Apply(old(Data()), c).ok && Data() == Apply(old(Data()), c).db && writes == [] && appended
      ensures !client ==> Trace() == old(Trace())
      ensures Traced(wal.enabled, old(Trace()), Trace(), writes, appended)
      ensures ok ==> reply == EntriesGone(c, old(Data()), Data())
      decreases if c.Vset? then 2 else 0
    {
      hide Coherent, Apply, Client, Evict, Run, Traced, GapFree, ReplicationMaster.Wired, ReplicationMaster.Valid, VNodeIndex.Valid,
        EntriesGone;
      reply := 0;
      writes, appended := [], true;
      VsetCounts(c, Data());
      NothingTraced(wal.enabled, Trace());
      ghost var db := Data();
      ghost var max := index.maxEntries;
      if c.Vset? && client {
        ok, writes, appended := MakeRoom(c.userKey);
        if !ok {
          RoomFailed(db, max, c, Data(), writes, appended);
          return;
        }
      }
      ghost var kept := writes;
      ghost var room := Data();
      ghost var trail := Trace();
      var done;
      ok, done, reply := ChangeData(c);
      VsetCounts(c, room);
      VsetReply(c, Data(), room, db);
      if !ok || !done {
        ClientEnds(db, max, c, client, room, kept);
        return;
      }
      if client {
        ok := Record(c);
        writes := writes + [c];
        appended := ok;
        RecordTraced(wal.enabled, trail, Trace(), c, ok);
        TracedMore(wal.enabled, old(Trace()), trail, Trace(), kept, [c], ok);
        ClientRecords(db, max, c, room, kept, ok);
      }
    }

    /** The eviction loop: delete the least recently used key until there is room. */
    method MakeRoom(key: Bytes) returns (ok: bool, ghost writes: seq<Cmd>, ghost appended: bool)
      requires Valid()
      modifies kv, index, index.storage, index.lru
      modifies wal.writer, repl`slaves, repl`active, repl`conns, repl`wire, repl`replies, repl.backlog, repl.backlog.buf
      ensures Valid()
      ensures Outcome(old(Data()), Data(), Evict(old(Data()), index.maxEntries, key), ok, writes, appended)
      ensures appended ==> ok && Data() == Run(old(Data()), writes).db
      ensures Traced(wal.enabled, old(Trace()), Trace(), writes, appended)
      decreases 1
    {
      hide Coherent, Apply, Client, Evict, Run, Traced, Outcome, Lookup, GapFree, ReplicationMaster.Wired, ReplicationMaster.Valid, VNodeIndex.Valid,
        EntriesGone;
      ghost var db := Data();
      ghost var max := index.maxEntries;
      ghost var full := Evict(db, max, key);
      ok, writes, appended := true, [], true;
      NothingTraced(wal.enabled, Trace());
      EvictBegins(db, max, key);
      var needs := index.NeedsRoomFor(key);
      while needs
        invariant Valid() && ok && appended && needs == NeedsRoom(index.Model(), max, key)
        invariant Evicting(db, Data(), max, key, writes)
        invariant Traced(wal.enabled, old(Trace()), Trace(), writes, true)
        decreases |index.storage.byId|
      {
        ghost var now, trail := Data(), Trace();
        VictimExists(now.index, max, key);
        var st, victim := index.PeekLruUserKey();
        VictimStays(now.index, max, key);
        assert Data() == now;
        var reply;
        ghost var one, done;
        ok, reply, one, done := ApplyMutation(Vdel(victim), true);
        EvictNext(db, now, max, key, writes, Data(), ok, one, done);
        TracedMore(wal.enabled, old(Trace()), trail, Trace(), writes, one, done);
        writes, appended := writes + one, done;
        if !ok {
          return;
        }
        needs := index.NeedsRoomFor(key);
      }
      EvictOver(db, Data(), max, key, writes);
    }

    /** WalManager::Replay: frame after frame of the file is applied. What follows the last whole frame,
        bytes that are no frame, or a frame that is no command ends it quietly; a command that cannot be
        applied, or is no write, is an error. */
    method Replay() returns (st: WalStatus, applied: nat)
      requires Valid()
      modifies kv, index, index.storage, index.lru
      modifies wal.writer, repl`slaves, repl`active, repl`conns, repl`wire, repl`replies, repl.backlog, repl.backlog.buf
      ensures Valid() && wal.writer.file == old(wal.writer.file) && repl.backlog.log == old(repl.backlog.log)
      ensures !wal.enabled ==> st == NotConfigured && Data() == old(Data())
      ensures wal.enabled ==> st in {WalOk, WalError}
                              && ReplayOf(old(Data()), wal.writer.file) == Replayed(st == WalOk, Data(), applied)
    {
      hide Coherent, Apply, Client, Run, SplitOf, RunTokens, Resp.Decode, FromTokens, EncodeAll, GapFree,
        ReplicationMaster.Wired, ReplicationMaster.Valid, VNodeIndex.Valid;
      applied := 0;
      if !wal.enabled {
        return NotConfigured, 0;
      }
      var buf := wal.writer.file;
      ghost var db := Data();
      var off := 0;
      assert buf[0..] == buf;
      SameResult(RunTokens(db, SplitOf(buf).frames));
      while off < |buf|
        invariant Valid() && off <= |buf| && wal.writer.file == buf && repl.backlog.log == old(repl.backlog.log)
        invariant RunTokens(db, SplitOf(buf).frames) == Onwards(applied, RunTokens(Data(), SplitOf(buf[off..]).frames))
        decreases |buf| - off
      {
        ghost var now := Data();
        SplitFirst(buf[off..]);
        var frame := Resp.DecodeArrayOfBulk(buf[off..]);
        if !frame.Frame? {
          NothingRuns(now);
          return WalOk, applied;
        }
        TokensFirst(now, frame.tokens, SplitOf(buf[off..][frame.consumed..]).frames);
        match FromTokens(frame.tokens) {
          case Refused(_) =>
            return WalOk, applied;
          case Other(_) =>
            return WalError, applied;
          case Write(c) =>
            ghost var writes, appended;
            var ok, reply;
            ok, reply, writes, appended := ApplyMutation(c, false);
            if !ok {
              return WalError, applied;
            }
            applied := applied + 1;
            assert buf[off..][frame.consumed..] == buf[off + frame.consumed..];
            off := off + frame.consumed;
        }
      }
      assert buf[off..] == [];
      EmptySplit();
      NothingRuns(Data());
      return WalOk, applied;
    }
  }

  /** What a change leaves coherent, and what DEL and VDEL are to reply. */
  lemma RightReply(db: Db, c: Cmd)
    requires Coherent(db.index)
    ensures var a := Apply(db, c);
            Coherent(a.db.index) && EntriesGone(c, db, a.db) == if (c.Del? || c.Vdel?) && a.done then 1 else 0
  {
    hide Coherent, Apply, ViewOf;
    ApplyShows(db, c);
    DoneWhen(db, c);
  }

  /** Only a DEL or VDEL counts what it removed. */
  lemma VsetCounts(c: Cmd, db: Db)
    ensures c.Vset? ==> forall other :: EntriesGone(c, db, other) == 0
  {}

  lemma VsetReply(c: Cmd, now: Db, room: Db, db: Db)
    ensures c.Vset? || room == db ==> EntriesGone(c, room, now) == EntriesGone(c, db, now)
  {}

  lemma SameResult(r: Fed)
    ensures Onwards(0, r) == r
  {}

  lemma NothingRuns(db: Db)
    ensures RunTokens(db, []) == Fed(Finished, db, 0)
  {}

  ghost predicate Outcome(before: Db, after: Db, full: Done, ok: bool, writes: seq<Cmd>, appended: bool) {
    if appended then ok == full.ok && after == full.db && writes == full.writes
    else !ok && writes != [] && writes <= full.writes && after == Run(before, writes).db
  }


  // ---- how the loop's passes add up to the whole eviction -------------------------------------------------------------

  /** `writes` have been evicted so far, and evicting goes on from here. */
  ghost predicate Evicting(before: Db, now: Db, max: nat, key: Bytes, writes: seq<Cmd>) {
    && Coherent(before.index) && Coherent(now.index)
    && Changes(before, writes) && now == Run(before, writes).db
    && Evict(before, max, key).writes == writes + Evict(now, max, key).writes
    && Evict(before, max, key).db == Evict(now, max, key).db
    && Evict(before, max, key).ok == Evict(now, max, key).ok
  }

  lemma EvictBegins(db: Db, max: nat, key: Bytes)
    requires Coherent(db.index)
    ensures Evicting(db, db, max, key, [])
  {
    NoChanges(db);
    assert [] + Evict(db, max, key).writes == Evict(db, max, key).writes;
  }

  lemma VictimExists(x: Index, max: nat, key: Bytes)
    requires Coherent(x) && NeedsRoom(x, max, key)
    ensures x.order != [] && x.order[0] in x.storage.byId && Victim(x) == Some(x.storage.byId[x.order[0]].userKey)
  {
    assert x.storage.byId != map[];
    VictimIs(x);
  }

  lemma VictimStays(x: Index, max: nat, key: Bytes)
    requires Coherent(x) && NeedsRoom(x, max, key)
    ensures DropStale(x.order, x.storage) == x.order
  {
    assert x.storage.byId != map[];
    VictimIs(x);
  }

  lemma EvictNext(before: Db, now: Db, max: nat, key: Bytes, writes: seq<Cmd>, after: Db, ok: bool, one: seq<Cmd>, done: bool)
    requires Evicting(before, now, max, key, writes) && NeedsRoom(now.index, max, key)
    requires Outcome(now, after, Client(now, max, Vdel(Victim(now.index).value)), ok, one, done)
    ensures one == [Vdel(Victim(now.index).value)] && ok == done
    ensures |after.index.storage.byId| < |now.index.storage.byId|
    ensures done ==> Evicting(before, after, max, key, writes + one)
    ensures !done ==> Outcome(before, after, Evict(before, max, key), ok, writes + one, done)
  {
    hide Coherent, Logged, Victim, Changes, Run, Evict, Apply;
    assert now.index.storage.byId != map[];
    VictimIs(now.index);
    VictimGoes(now);
    var c := Vdel(Victim(now.index).value);
    LoggedChanges(now, c);
    ChangesConcat(before, writes, [c]);
    EvictUnfolds(now, max, key);
    var d := Logged(now, c);
    assert one == [c];
    assert after == d.db;
    assert writes + ([c] + Evict(d.db, max, key).writes) == writes + [c] + Evict(d.db, max, key).writes;
  }

  lemma EvictUnfolds(db: Db, max: nat, key: Bytes)
    requires Coherent(db.index) && NeedsRoom(db.index, max, key)
    ensures Victim(db.index).Some?
    ensures var d := Logged(db, Vdel(Victim(db.index).value));
            && Coherent(d.db.index)
            && Evict(db, max, key) == (var r := Evict(d.db, max, key); Done(r.ok, r.db, d.writes + r.writes))
  {
    hide Coherent, Logged, Victim;
    assert db.index.storage.byId != map[];
    VictimIs(db.index);
    VictimGoes(db);
  }

  lemma EvictOver(before: Db, now: Db, max: nat, key: Bytes, writes: seq<Cmd>)
    requires Evicting(before, now, max, key, writes) && !NeedsRoom(now.index, max, key)
    ensures Outcome(before, now, Evict(before, max, key), true, writes, true)
    ensures now == Run(before, writes).db
  {
    hide Coherent, Changes, Run;
    assert writes + [] == writes;
  }

  lemma RoomFailed(db: Db, max: nat, c: Cmd, after: Db, writes: seq<Cmd>, appended: bool)
    requires Coherent(db.index) && c.Vset? && Outcome(db, after, Evict(db, max, c.userKey), false, writes, appended)
    ensures Outcome(db, after, Client(db, max, c), false, writes, appended) && !appended
  {
    hide Coherent, Logged, Evict, Run;
    EvictMakesRoom(db, max, c.userKey);
  }

  lemma ClientEnds(db: Db, max: nat, c: Cmd, client: bool, room: Db, kept: seq<Cmd>)
    requires Coherent(db.index) && !Apply(room, c).done
    requires if c.Vset? && client then Outcome(db, room, Evict(db, max, c.userKey), true, kept, true) else room == db && kept == []
    ensures client ==> Outcome(db, Apply(room, c).db, Client(db, max, c), Apply(room, c).ok, kept, true)
  {
    hide Coherent, Evict, Run, Apply;
    assert kept + [] == kept;
  }

  lemma ClientRecords(db: Db, max: nat, c: Cmd, room: Db, kept: seq<Cmd>, ok: bool)
    requires Coherent(db.index) && Apply(room, c).done
    requires if c.Vset? then Outcome(db, room, Evict(db, max, c.userKey), true, kept, true) && room == Run(db, kept).db
             else room == db && kept == []
    ensures Outcome(db, Apply(room, c).db, Client(db, max, c), ok, kept + [c], ok)
    ensures Kept(kept + [c], ok) == kept + if ok then [c] else []
  {
    hide Coherent, Evict, Run, Apply, Changes;
    DoneOk(room, c);
    if c.Vset? {
      EvictChanges(db, max, c.userKey);
    }
    NoChanges(db);
    LoggedChanges(room, c);
    ChangesConcat(db, kept, [c]);
    assert (kept + [c])[..|kept|] == kept;
    assert [] + [c] == [c];
  }

  lemma Masters(m: Master)
    requires GapFree(m)
    ensures m.base <= |m.log|
  {}
}
