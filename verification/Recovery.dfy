/** Restart: load the snapshot, then replay the whole append-only file over it. */
module Recoveries {
  import opened ByteStrings
  import opened Commands
  import opened Views
  import opened VNodeStorages
  import opened VNodeIndexes
  import opened Databases
  import opened Frames
  import opened Snapshots
  import opened Mutations
  import opened Sessions

  // ---- what a run logs ------------------------------------------------------------------------------------

  lemma {:induction false} ChangesSame(a: Db, b: Db, writes: seq<Cmd>)
    requires SameData(a, b) && Changes(a, writes)
    ensures Changes(b, writes)
    decreases |writes|
  {
    hide Apply, SameData;
    if writes != [] {
      ApplySame(a, b, writes[0]);
      ChangesSame(Apply(a, writes[0]).db, Apply(b, writes[0]).db, writes[1..]);
    }
  }

  /** Every logged command changed the data it was applied to. */
  lemma {:induction false} SessionChanges(db: Db, max: nat, rs: seq<Ask>)
    requires Coherent(db.index) && AnnFirst(db)
    ensures Changes(db, ServeAll(db, max, rs).log)
    decreases |rs|
  {
    hide Coherent, SameData, AnnFirst, Run, Changes, Client, GetNode;
    if rs == [] {
      NoChanges(db);
    } else {
      SessionChanges(db, max, rs[..|rs| - 1]);
      SameAsItself(db);
      ReplayEqualsMemory(db, db, max, rs[..|rs| - 1]);
      var s := ServeAll(db, max, rs[..|rs| - 1]);
      match rs[|rs| - 1]
      case Change(c) =>
        ClientShows(s.db, max, c);
        ChangesSame(s.db, Run(db, s.log).db, Client(s.db, max, c).writes);
        ChangesConcat(db, s.log, Client(s.db, max, c).writes);
      case Look(_, _) =>
    }
  }

  lemma SameAsItself(db: Db)
    ensures SameData(db, db)
  {}

  /** The dimension, once locked, stays; every vector that got in has it. */
  lemma ApplyDim(db: Db, c: Cmd)
    requires Coherent(db.index)
    ensures var x := Apply(db, c).db.index;
            && (db.index.ann.Some? ==> x.ann.Some? && Dim(x) == Dim(db.index))
            && (Apply(db, c).done && c.Vset? ==> x.ann.Some? && DimOf(c.vector) == Some(Dim(x)))
  {}

  lemma {:induction false} RunDim(db: Db, writes: seq<Cmd>)
    requires Coherent(db.index) && Changes(db, writes)
    ensures var x := Run(db, writes).db.index;
            && (db.index.ann.Some? ==> x.ann.Some? && Dim(x) == Dim(db.index))
            && Uniform(writes, Dim(x))
    decreases |writes|
  {
    hide Apply, Coherent;
    if writes != [] {
      var a := Apply(db, writes[0]);
      DoneOk(db, writes[0]);
      ApplyShows(db, writes[0]);
      ApplyDim(db, writes[0]);
      RunDim(a.db, writes[1..]);
      UniformCons(writes, Dim(Run(db, writes).db.index));
    }
  }

  lemma UniformCons(log: seq<Cmd>, dim: nat)
    requires log != [] && HasKey(log[0]) && (log[0].Vset? ==> DimOf(log[0].vector) == Some(dim))
    requires Uniform(log[1..], dim)
    ensures Uniform(log, dim)
  {
    forall i | 0 <= i < |log| ensures HasKey(log[i]) && (log[i].Vset? ==> DimOf(log[i].vector) == Some(dim)) {
      if i > 0 {
        assert log[i] == log[1..][i - 1];
        assert HasKey(log[1..][i - 1]);
      }
    }
  }

  lemma UniformPrefix(log: seq<Cmd>, k: nat, dim: nat)
    requires k <= |log| && Uniform(log, dim)
    ensures Uniform(log[..k], dim)
  {
    forall i | 0 <= i < k ensures HasKey(log[..k][i]) && (log[..k][i].Vset? ==> DimOf(log[..k][i].vector) == Some(dim)) {
      assert HasKey(log[i]);
    }
  }

  /** Vectors logged by a run all have the dimension of its index. */
  lemma SessionDim(db: Db, max: nat, rs: seq<Ask>)
    requires Coherent(db.index) && AnnFirst(db)
    ensures Uniform(ServeAll(db, max, rs).log, Dim(ServeAll(db, max, rs).db.index))
  {
    hide Coherent, AnnFirst, Run, Changes;
    SessionChanges(db, max, rs);
    RunDim(db, ServeAll(db, max, rs).log);
    SameAsItself(db);
    ReplayEqualsMemory(db, db, max, rs);
  }

  lemma {:induction false} DimStays(db: Db, max: nat, rs: seq<Ask>, i: nat)
    requires Coherent(db.index) && i <= |rs|
    ensures var x, y := ServeAll(db, max, rs[..i]).db.index, ServeAll(db, max, rs).db.index;
            x.ann.Some? ==> y.ann.Some? && Dim(y) == Dim(x)
    decreases |rs|
  {
    hide Coherent, Client;
    if i == |rs| {
      assert rs[..i] == rs;
    } else {
      var n := |rs| - 1;
      assert rs[..n][..i] == rs[..i];
      DimStays(db, max, rs[..n], i);
      var s := ServeAll(db, max, rs[..n]);
      match rs[n]
      case Change(c) => ClientDim(s.db, max, c);
      case Look(_, _) =>
    }
  }

  lemma ClientDim(db: Db, max: nat, c: Cmd)
    requires Coherent(db.index)
    ensures var y := Client(db, max, c).db.index;
            db.index.ann.Some? ==> y.ann.Some? && Dim(y) == Dim(db.index)
  {
    hide Coherent, Evict, Run, Changes, Apply;
    if c.Vset? {
      EvictMakesRoom(db, max, c.userKey);
      EvictChanges(db, max, c.userKey);
      RunDim(db, Evict(db, max, c.userKey).writes);
      ApplyDim(Evict(db, max, c.userKey).db, c);
    } else {
      ApplyDim(db, c);
    }
  }

  // ---- the restart ------------------------------------------------------------------------------------------

  /** A snapshot that loads back: its lengths fit their fields and its ids are not exhausted. */
  ghost predicate Reloadable(db: Db, o: Orders) {
    OrdersOf(o, db) && ImageFits(db, o) && (db.index.storage.nextId != 0 || db.index.storage.byId == map[])
  }

  /** The snapshot was saved at moment i of a run; the file holds the log of the whole run, cut at any
      byte after that moment. The restart shows the effects of exactly the whole frames in the file,
      although the replayed VSETs may be given other ids; it succeeds exactly when the ids the file
      asks for are still free after the load. */
  lemma Restart(db: Db, max: nat, rs: seq<Ask>, i: nat, o: Orders, before: Db, hint: Walk, n: nat)
    requires Coherent(db.index) && AnnFirst(db) && i <= |rs|
    requires var s, end := ServeAll(db, max, rs[..i]), ServeAll(db, max, rs);
             Reloadable(s.db, o) && |EncodeAll(s.log)| <= n <= |EncodeAll(end.log)|
    ensures var s, end := ServeAll(db, max, rs[..i]), ServeAll(db, max, rs);
            var l := LoadPath(Image(s.db, o), before, hint);
            var q := ReplayOf(l.db, EncodeAll(end.log)[..n]);
            var k := WholeFrames(end.log, n);
            && l.ok
            && (q.ok ==> q.applied == k && Coherent(q.db.index) && ViewOf(q.db) == Effects(ViewOf(db), end.log[..k]))
            && (q.ok <==> NewIds(end.log[..k], s.db.index.storage.byKey.Keys) <= FreeIds(l.db.index.storage))
  {
    hide Coherent, AnnFirst, Run, Changes, ServeAll, EncodeAll, ViewOf, Effects, Reloadable, LoadPath, Image, ReplayOf, Uniform, NewIds;
    var s, end := ServeAll(db, max, rs[..i]), ServeAll(db, max, rs);
    Orderly(s.db, o);
    var l := LoadPath(Image(s.db, o), before, hint);
    var k := WholeFrames(end.log, n);
    var cs := end.log[..k];
    Loaded(s.db, o, before, hint);
    SameAsItself(db);
    ReplayEqualsMemory(db, db, max, rs);
    CrashPrefix(l.db, end.log, n);
    LogGrows(db, max, rs, i);
    Covers(s.log, end.log, n);
    SessionShows(db, max, rs[..i]);
    RunShows(l.db, cs);
    assert cs[..|cs|] == cs;
    assert cs == s.log + cs[|s.log|..];
    Overlap(ViewOf(db), s.log, cs[|s.log|..]);
    SessionDim(db, max, rs);
    DimStays(db, max, rs, i);
    UniformPrefix(end.log, k, Dim(end.db.index));
    RunsInFull(l.db, cs, Dim(end.db.index));
  }

  lemma Orderly(db: Db, o: Orders)
    requires Reloadable(db, o)
    ensures OrdersOf(o, db)
  {
    hide OrdersOf, ImageFits;
  }

  lemma Loaded(db: Db, o: Orders, before: Db, hint: Walk)
    requires Coherent(db.index) && Reloadable(db, o)
    ensures var l := LoadPath(Image(db, o), before, hint);
            && l.ok && Coherent(l.db.index) && ViewOf(l.db) == ViewOf(db)
            && l.db.index.ann == db.index.ann && l.db.index.storage.byKey == db.index.storage.byKey
  {
    hide LoadImage, ImageFits, Image, Coherent, ViewOf;
    SaveLoad(db, o, true, before, hint.first);
    ReloadCoherent(db, hint.first);
    ReloadShows(db, hint.first);
  }

  /** A cut no earlier than the end of a prefix of the log keeps all of that prefix. */
  lemma Covers(a: seq<Cmd>, log: seq<Cmd>, n: nat)
    requires a <= log && |EncodeAll(a)| <= n <= |EncodeAll(log)|
    ensures |a| <= WholeFrames(log, n) && a <= log[..WholeFrames(log, n)]
  {
    hide EncodeAll;
    var k := WholeFrames(log, n);
    if k < |a| {
      assert log[..k + 1] == a[..k + 1];
      EncodeAllSplit(a, k + 1);
    }
  }

  /** With the whole file, the restart shows what was shown at the end of the run. */
  lemma RestartWhole(db: Db, max: nat, rs: seq<Ask>, i: nat, o: Orders, before: Db, hint: Walk)
    requires Coherent(db.index) && AnnFirst(db) && i <= |rs| && Reloadable(ServeAll(db, max, rs[..i]).db, o)
    ensures var end := ServeAll(db, max, rs);
            var l := LoadPath(Image(ServeAll(db, max, rs[..i]).db, o), before, hint);
            var q := ReplayOf(l.db, EncodeAll(end.log));
            l.ok && (q.ok ==> ViewOf(q.db) == ViewOf(end.db))
  {
    hide Coherent, AnnFirst, ServeAll, EncodeAll, ViewOf, Effects, Reloadable, LoadPath, Image, ReplayOf;
    var end := ServeAll(db, max, rs);
    LogGrows(db, max, rs, i);
    var a := ServeAll(db, max, rs[..i]).log;
    assert end.log[..|a|] == a;
    EncodeAllSplit(end.log, |a|);
    var n := |EncodeAll(end.log)|;
    Restart(db, max, rs, i, o, before, hint, n);
    assert EncodeAll(end.log)[..n] == EncodeAll(end.log);
    SessionShows(db, max, rs);
    AllFrames(end.log);
  }

  lemma AllFrames(log: seq<Cmd>)
    ensures log[..WholeFrames(log, |EncodeAll(log)|)] == log
  {
    assert log[..|log|] == log;
  }

  // ---- replay can exhaust the ids ------------------------------------------------------------------------------

  const ONE_FLOAT: Bytes := [0, 0, 128, 63]

  /** Storing and deleting one key, n times over. */
  function Churn(key: Bytes, n: nat): seq<Cmd> {
    if n == 0 then [] else [Vset(ONE_FLOAT, key, [], []), Vdel(key)] + Churn(key, n - 1)
  }

  lemma {:induction false} ChurnIds(key: Bytes, n: nat, cached: set<Bytes>)
    requires key !in cached
    ensures NewIds(Churn(key, n), cached) == n
  {
    if n > 0 {
      var log, rest := Churn(key, n), Churn(key, n - 1);
      assert log[1..] == [Vdel(key)] + rest;
      assert log[1..][1..] == rest;
      assert cached + {key} - {key} == cached;
      ChurnIds(key, n - 1, cached);
    }
  }

  lemma {:induction false} ChurnUniform(key: Bytes, n: nat)
    requires key != []
    ensures Uniform(Churn(key, n), 1)
  {
    if n > 0 {
      var log := Churn(key, n);
      ChurnUniform(key, n - 1);
      assert log[1..] == [Vdel(key)] + Churn(key, n - 1);
      assert log[1..][1..] == Churn(key, n - 1);
      UniformCons(log[1..], 1);
      UniformCons(log, 1);
    }
  }

  /** An empty index that has given out ids below j, and perhaps locked its dimension. */
  ghost predicate Emptied(db: Db, j: nat) {
    && 0 < j < 65536 && db.index.storage == Storage(map[], map[], j) && db.index.order == []
    && (db.index.ann == None || db.index.ann == Some(Ann(1, map[])))
  }

  lemma ChurnOnce(db: Db, key: Bytes, j: nat)
    requires key != [] && Emptied(db, j) && j < 65535
    ensures var a := Apply(db, Vset(ONE_FLOAT, key, [], []));
            var b := Apply(a.db, Vdel(key));
            a.ok && b.ok && Emptied(b.db, j + 1) && b.db.index.ann.Some?
  {
    var a := Apply(db, Vset(ONE_FLOAT, key, [], [])).db;
    assert a.index.order == [j];
    var b := Apply(a, Vdel(key)).db;
    assert b.index.storage == Storage(map[], map[], j + 1);
    assert b.index.ann.value.vectors == map[];
  }

  lemma {:induction false} ChurnLeaves(db: Db, key: Bytes, j: nat, n: nat)
    requires key != [] && Emptied(db, j) && j + n < 65536
    ensures var q := Run(db, Churn(key, n));
            q.ok && Emptied(q.db, j + n) && (n > 0 ==> q.db.index.ann.Some?)
    decreases n
  {
    hide Apply;
    if n > 0 {
      var log, rest := Churn(key, n), Churn(key, n - 1);
      assert log[1..] == [Vdel(key)] + rest;
      assert log[1..][1..] == rest;
      ChurnOnce(db, key, j);
      var b := Apply(Apply(db, log[0]).db, log[1]).db;
      ChurnLeaves(b, key, j + 1, n - 1);
      StillSome(b, rest);
    }
  }

  lemma {:induction false} StillSome(db: Db, log: seq<Cmd>)
    requires db.index.ann.Some?
    ensures Run(db, log).db.index.ann.Some?
    decreases |log|
  {
    if log != [] && Apply(db, log[0]).ok {
      StillSome(Apply(db, log[0]).db, log[1..]);
    }
  }

  /** A server that churned one key n times and then restarts from a snapshot taken at the end spends
      the ids of the whole file a second time: it fails to start exactly when twice n ids are too
      many, although the same file replays in full over an empty store. */
  lemma ChurnedRestart(key: Bytes, n: nat, hint: seq<Id>)
    requires key != [] && 0 < n < 65535
    ensures var q := Run(EMPTY_DB, Churn(key, n));
            q.ok && (Run(Reloaded(q.db, hint), Churn(key, n)).ok <==> 2 * n <= 65535)
  {
    ChurnLeaves(EMPTY_DB, key, 1, n);
    var db := Run(EMPTY_DB, Churn(key, n)).db;
    EmptyCoherent(db, n + 1);
    ReloadCoherent(db, hint);
    ChurnUniform(key, n);
    ChurnIds(key, n, {});
    assert Reloaded(db, hint).index.storage.byKey.Keys == {};
    hide Coherent, Apply;
    RunsInFull(Reloaded(db, hint), Churn(key, n), 1);
  }

  lemma EmptyCoherent(db: Db, j: nat)
    requires Emptied(db, j)
    ensures Coherent(db.index)
  {}
}
