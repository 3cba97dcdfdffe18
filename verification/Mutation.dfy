/** ApplyMutation: a client's write with the evictions it causes and what it leaves in the log,
    and the requests of a whole run. */
module Mutations {
  import opened ByteStrings
  import opened Commands
  import opened Views
  import opened VNodeStorages
  import opened LruOrders
  import opened VNodeIndexes
  import opened Databases
  import opened Frames

  /** The reply, the data afterwards, and the commands that changed it, in order. */
  datatype Done = Done(ok: bool, db: Db, writes: seq<Cmd>)

  function Logged(db: Db, c: Cmd): Done {
    var a := Apply(db, c);
    Done(a.ok, a.db, if a.done then [c] else [])
  }

  /** The user key of the least recently used node, once stale ids are passed over. */
  function Victim(x: Index): Option<Bytes> {
    var o := DropStale(x.order, x.storage);
    if o == [] then None else Some(x.storage.byId[o[0]].userKey)
  }

  /** Make room for a new key: delete least recently used nodes one by one. */
  function Evict(db: Db, max: nat, key: Bytes): Done
    requires Coherent(db.index)
    decreases |db.index.storage.byId|
  {
    if !NeedsRoom(db.index, max, key) then Done(true, db, [])
    else
      VictimIs(db.index);
      var d := Logged(db, Vdel(Victim(db.index).value));
      VictimGoes(db);
      var r := Evict(d.db, max, key);
      Done(r.ok, r.db, d.writes + r.writes)
  }

  function Client(db: Db, max: nat, c: Cmd): Done
    requires Coherent(db.index)
  {
    if !c.Vset? then Logged(db, c)
    else
      var e := Evict(db, max, c.userKey);
      var d := Logged(e.db, c);
      Done(d.ok, d.db, e.writes + d.writes)
  }

  lemma FirstLive(o: seq<Id>, s: Storage)
    requires o != [] && o[0] in s.byId
    ensures DropStale(o, s) == o
  {}

  /** A coherent index that is not empty always has a victim: the first key of the access order. */
  lemma VictimIs(x: Index)
    requires Coherent(x) && x.storage.byId != map[]
    ensures x.order != [] && x.order[0] in x.storage.byId && DropStale(x.order, x.storage) == x.order
    ensures Victim(x) == Some(x.storage.byId[x.order[0]].userKey)
    ensures Victim(x).value != [] && Victim(x).value in x.storage.byKey
    ensures x.storage.byKey[Victim(x).value] == x.order[0]
  {
    var i :| i in x.storage.byId;
    assert i in x.order;
    assert x.order[0] in x.order;
    FirstLive(x.order, x.storage);
    InverseAtId(x.storage, x.order[0]);
  }

  lemma VictimGoes(db: Db)
    requires Coherent(db.index) && db.index.storage.byId != map[]
    ensures var v := Victim(db.index).value;
            var d := Logged(db, Vdel(v));
            && d.ok && d.writes == [Vdel(v)] && Coherent(d.db.index) && d.db.kv == db.kv
            && d.db.index.storage.byId == db.index.storage.byId - {db.index.order[0]}
            && |d.db.index.storage.byId| == |db.index.storage.byId| - 1
            && d.db.index.storage.byKey == db.index.storage.byKey - {v}
            && d.db.index.order == db.index.order[1..]
  {
    hide Coherent, Victim, DropStale, Without;
    var x := db.index;
    VictimIs(x);
    DelKeepsCoherent(x, Victim(x).value);
    LiveKey(x, Victim(x).value);
  }

  /** The first key of the order is stored under the first id. */
  lemma LiveKey(x: Index, key: Bytes)
    requires Coherent(x) && x.order != [] && key in x.storage.byKey && x.storage.byKey[key] == x.order[0]
    ensures x.order[0] in x.storage.byId && Lookup(x.storage, key).Some?
    ensures Without(x.order, x.order[0]) == x.order[1..]
  {
    InverseAt(x.storage, key);
    FirstOnly(x.order);
  }

  lemma FirstOnly(o: seq<Id>)
    requires o != [] && Distinct(o)
    ensures Without(o, o[0]) == o[1..]
  {
    assert o[0] !in o[1..];
  }

  // ---- eviction ---------------------------------------------------------------------------------------------

  /** e is x without its n least recently used nodes, and its writes delete their keys, oldest first. */
  ghost predicate Evicted(x: Index, e: Done, n: nat) {
    && n <= |x.order| && e.db.index.order == x.order[n..] && |e.writes| == n
    && (forall i | 0 <= i < n :: x.order[i] in x.storage.byId && e.writes[i] == Vdel(x.storage.byId[x.order[i]].userKey))
    && (forall i | i in e.db.index.storage.byId :: i in x.storage.byId && e.db.index.storage.byId[i] == x.storage.byId[i])
  }

  /** Eviction never fails. It takes place for a new key when the limit is reached; it deletes the least recently
      used keys and no more of them than needed, and then there is room. */
  lemma {:induction false} EvictMakesRoom(db: Db, max: nat, key: Bytes)
    requires Coherent(db.index)
    ensures var e := Evict(db, max, key);
            var full := max != 0 && key != [] && key !in db.index.storage.byKey && |db.index.storage.byId| >= max;
            var n := if full then |db.index.storage.byId| - max + 1 else 0;
            && e.ok && Coherent(e.db.index) && e.db.kv == db.kv && Evicted(db.index, e, n)
            && |e.db.index.storage.byId| == |db.index.storage.byId| - n
            && !NeedsRoom(e.db.index, max, key)
            && (key !in db.index.storage.byKey ==> key !in e.db.index.storage.byKey)
    decreases |db.index.storage.byId|
  {
    hide Coherent, Logged, DropStale, Evicted, Victim, NeedsRoom;
    var x := db.index;
    NeedsIs(x, max, key);
    if NeedsRoom(x, max, key) {
      assert x.storage.byId != map[];
      VictimIs(x);
      VictimGoes(db);
      var v := Victim(x).value;
      var d := Logged(db, Vdel(v));
      EvictMakesRoom(d.db, max, key);
      EvictedCount(d.db.index, Evict(d.db, max, key), if NeedsRoom(d.db.index, max, key) then |x.storage.byId| - max else 0);
      NeedsIs(d.db.index, max, key);
      var r := Evict(d.db, max, key);
      EvictedCount(d.db.index, r, |r.writes|);
      OneMore(x, d.db.index, v, r, Evict(db, max, key));
    } else {
      NoneEvicted(db);
    }
  }

  lemma LookupIs(x: Index, key: Bytes)
    requires Coherent(x)
    ensures Lookup(x.storage, key).Some? <==> key in x.storage.byKey
  {}

  lemma NeedsIs(x: Index, max: nat, key: Bytes)
    requires Coherent(x)
    ensures NeedsRoom(x, max, key) <==> max != 0 && key != [] && key !in x.storage.byKey && |x.storage.byId| >= max
  {}

  lemma NoneEvicted(db: Db)
    ensures Evicted(db.index, Done(true, db, []), 0)
    ensures Coherent(db.index) ==> |db.index.storage.byId| - 0 == |db.index.storage.byId|
  {}

  lemma EvictedCount(x: Index, e: Done, n: nat)
    requires Evicted(x, e, n)
    ensures |e.writes| == n
  {}

  lemma OneMore(x: Index, y: Index, v: Bytes, r: Done, e: Done)
    requires x.order != [] && x.order[0] in x.storage.byId && v == x.storage.byId[x.order[0]].userKey
    requires y.order == x.order[1..] && y.storage.byId == x.storage.byId - {x.order[0]}
    requires e.db == r.db && e.writes == [Vdel(v)] + r.writes && Evicted(y, r, |r.writes|)
    ensures Evicted(x, e, |r.writes| + 1)
  {
    forall i | 0 <= i < |e.writes|
      ensures x.order[i] in x.storage.byId && e.writes[i] == Vdel(x.storage.byId[x.order[i]].userKey)
    {
      if i > 0 {
        assert y.order[i - 1] == x.order[i];
      }
    }
  }

  // ---- one client command ----------------------------------------------------------------------------------

  /** Running a list of commands that all change the data. */
  ghost predicate Changes(db: Db, writes: seq<Cmd>)
    decreases |writes|
  {
    writes != [] ==> Apply(db, writes[0]).done && Changes(Apply(db, writes[0]).db, writes[1..])
  }

  lemma {:induction false} ChangesRun(db: Db, writes: seq<Cmd>)
    requires Changes(db, writes)
    ensures Run(db, writes).ok && AllKeyed(writes)
    decreases |writes|
  {
    hide Apply;
    if writes != [] {
      DoneOk(db, writes[0]);
      ChangesRun(Apply(db, writes[0]).db, writes[1..]);
    }
  }

  lemma DoneOk(db: Db, c: Cmd)
    requires Apply(db, c).done
    ensures Apply(db, c).ok && HasKey(c)
  {}

  lemma {:induction false} ChangesConcat(db: Db, a: seq<Cmd>, b: seq<Cmd>)
    requires Changes(db, a) && Changes(Run(db, a).db, b)
    ensures Changes(db, a + b) && Run(db, a + b).db == Run(Run(db, a).db, b).db
    decreases |a|
  {
    hide Apply;
    if a == [] {
      assert a + b == b;
    } else {
      assert (a + b)[1..] == a[1..] + b;
      DoneOk(db, a[0]);
      ChangesConcat(Apply(db, a[0]).db, a[1..], b);
    }
  }

  lemma LoggedChanges(db: Db, c: Cmd)
    ensures Changes(db, Logged(db, c).writes)
    ensures Logged(db, c).writes != [] ==> Run(db, Logged(db, c).writes).db == Logged(db, c).db
  {
    hide Apply;
    if Apply(db, c).done {
      DoneOk(db, c);
      assert [c][1..] == [];
    }
  }

  lemma {:induction false} EvictChanges(db: Db, max: nat, key: Bytes)
    requires Coherent(db.index)
    ensures var e := Evict(db, max, key);
            Changes(db, e.writes) && e.db == Run(db, e.writes).db
    decreases |db.index.storage.byId|
  {
    hide Coherent, Logged, DropStale, Victim, Changes, Run;
    if NeedsRoom(db.index, max, key) {
      assert db.index.storage.byId != map[];
      VictimIs(db.index);
      VictimGoes(db);
      var c := Vdel(Victim(db.index).value);
      LoggedChanges(db, c);
      var d := Logged(db, c).db;
      EvictChanges(d, max, key);
      ChangesConcat(db, [c], Evict(d, max, key).writes);
    } else {
      NoChanges(db);
    }
  }

  lemma NoChanges(db: Db)
    ensures Changes(db, []) && Run(db, []) == Ran(true, db, 0)
  {}

  /** A client command keeps the structures coherent; each command it logs changed the data, in
      order, and clients see exactly the effects of what it logged. */
  lemma ClientShows(db: Db, max: nat, c: Cmd)
    requires Coherent(db.index)
    ensures var d := Client(db, max, c);
            && Coherent(d.db.index) && Changes(db, d.writes)
            && ViewOf(d.db) == Effects(ViewOf(db), d.writes)
            && (d.ok && d.writes != [] ==> d.db == Run(db, d.writes).db)
  {
    hide Coherent, Logged, Evict, Changes, ViewOf, Run, Effects;
    var e := if c.Vset? then Evict(db, max, c.userKey) else Done(true, db, []);
    NoChanges(db);
    if c.Vset? {
      EvictMakesRoom(db, max, c.userKey);
      EvictChanges(db, max, c.userKey);
    }
    var d := Logged(e.db, c);
    LoggedChanges(e.db, c);
    ChangesConcat(db, e.writes, d.writes);
    assert [] + d.writes == d.writes;
    ChangesRun(db, e.writes);
    RunShows(db, e.writes);
    assert e.writes[..|e.writes|] == e.writes;
    LoggedShows(e.db, c);
    EffectsConcat(ViewOf(db), e.writes, d.writes);
    LoggedRun(e.db, c);
  }

  lemma LoggedRun(db: Db, c: Cmd)
    ensures Logged(db, c).writes == [] ==> Run(db, Logged(db, c).writes).db == db
    ensures Logged(db, c).ok && c.Vset? ==> Logged(db, c).writes != []
  {}

  lemma LoggedShows(db: Db, c: Cmd)
    requires Coherent(db.index)
    ensures var d := Logged(db, c);
            Coherent(d.db.index) && ViewOf(d.db) == Effects(ViewOf(db), d.writes)
  {
    hide Apply, Coherent, ViewOf, Effects;
    ApplyShows(db, c);
    NoEffects(ViewOf(db), []);
    EffectsOne(ViewOf(db), c);
    if Apply(db, c).done {
      DoneOk(db, c);
    }
  }

  // ---- replay gives back memory --------------------------------------------------------------------------------

  /** The same maps, ids, next id and vectors; only the access order may differ. */
  ghost predicate SameData(a: Db, b: Db) {
    a.kv == b.kv && a.index.storage == b.index.storage && a.index.ann == b.index.ann
  }

  /** Ids are given out only once there is an index. */
  ghost predicate AnnFirst(db: Db) { db.index.ann.None? ==> db.index.storage.nextId != 0 }

  lemma ApplySame(a: Db, b: Db, c: Cmd)
    requires SameData(a, b)
    ensures Apply(a, c).ok == Apply(b, c).ok && Apply(a, c).done == Apply(b, c).done
    ensures SameData(Apply(a, c).db, Apply(b, c).db)
  {}

  lemma ApplyAnn(db: Db, c: Cmd)
    requires AnnFirst(db)
    ensures AnnFirst(Apply(db, c).db)
    ensures !Apply(db, c).done ==> SameData(Apply(db, c).db, db)
  {}

  lemma {:induction false} RunSame(a: Db, b: Db, log: seq<Cmd>)
    requires SameData(a, b) && AnnFirst(a)
    ensures Run(a, log).ok == Run(b, log).ok && SameData(Run(a, log).db, Run(b, log).db) && AnnFirst(Run(a, log).db)
    decreases |log|
  {
    hide Apply, SameData, AnnFirst;
    if log != [] {
      ApplySame(a, b, log[0]);
      ApplyAnn(a, log[0]);
      RunSame(Apply(a, log[0]).db, Apply(b, log[0]).db, log[1..]);
    }
  }

  /** What a client command logged, replayed over the same data, leaves the same data. */
  lemma ClientReplays(db: Db, m: Db, max: nat, c: Cmd)
    requires Coherent(db.index) && SameData(db, m) && AnnFirst(db)
    ensures var d := Client(db, max, c);
            var q := Run(m, d.writes);
            q.ok && SameData(d.db, q.db) && AnnFirst(d.db)
  {
    hide Coherent, Evict, Changes, ViewOf, Run, Effects, Apply, SameData, AnnFirst;
    ClientShows(db, max, c);
    var e := if c.Vset? then Evict(db, max, c.userKey) else Done(true, db, []);
    if c.Vset? {
      EvictChanges(db, max, c.userKey);
    }
    NoChanges(db);
    var d := Client(db, max, c);
    ChangesRun(db, d.writes);
    RunSame(db, m, d.writes);
    RunSame(db, m, e.writes);
    ApplyAnn(e.db, c);
    LoggedChanges(e.db, c);
    ChangesConcat(db, e.writes, Logged(e.db, c).writes);
    assert [] + Logged(e.db, c).writes == Logged(e.db, c).writes;
    if !Apply(e.db, c).done {
      assert e.writes + [] == e.writes;
      SameTwice(d.db, e.db, Run(m, d.writes).db);
    }
  }

  lemma SameTwice(a: Db, b: Db, c: Db)
    requires SameData(a, b) && SameData(b, c)
    ensures SameData(a, c)
  {}
}
