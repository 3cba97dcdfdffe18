/** Eviction by last use, stated without the access order: every victim was last stored or hit by a
    lookup longer ago than every key that stays. */
module Recency {
  import opened ByteStrings
  import opened Commands
  import opened VNodeStorages
  import opened LruOrders
  import opened VNodeIndexes
  import opened Databases
  import opened Mutations
  import opened Sessions

  function Position(o: seq<Id>, id: Id): (i: nat)
    requires id in o
    ensures i < |o| && o[i] == id
  {
    if o[0] == id then 0 else 1 + Position(o[1..], id)
  }

  /** Keys present at the start count as used before the first request, in their given order. */
  function StartUse(x: Index): map<Bytes, int>
    requires Coherent(x)
  {
    map k | k in x.storage.byKey :: Position(x.order, x.storage.byKey[k]) - |x.order|
  }

  /** The user key a request uses: the one it stores, or the one its lookup hits. */
  function UsedBy(s: Session, max: nat, r: Ask): Option<Bytes>
    requires Coherent(s.db.index)
  {
    match r
    case Change(c) => if c.Vset? && Client(s.db, max, c).ok then Some(c.userKey) else None
    case Look(blob, nearest) =>
      if GetNode(s.db.index, blob, nearest).0 == Okay then Some(s.db.index.storage.byId[nearest.value].userKey) else None
  }

  /** When each key was last used: the number of its latest request. */
  function LastUse(db: Db, max: nat, rs: seq<Ask>): map<Bytes, int>
    requires Coherent(db.index)
    decreases |rs|
  {
    if rs == [] then StartUse(db.index)
    else
      var n := |rs| - 1;
      var k := UsedBy(ServeAll(db, max, rs[..n]), max, rs[n]);
      var m := LastUse(db, max, rs[..n]);
      if k.Some? then m[k.value := n] else m
  }

  // ---- the access order is the order of last use ----------------------------------------------------------------

  function RankOf(x: Index, used: map<Bytes, int>): map<Id, int> {
    map i | i in x.storage.byId :: if x.storage.byId[i].userKey in used then used[x.storage.byId[i].userKey] else 0
  }

  ghost predicate Sorted(o: seq<Id>, rank: map<Id, int>) {
    forall i, j | 0 <= i < j < |o| :: o[i] in rank && o[j] in rank && rank[o[i]] < rank[o[j]]
  }

  ghost predicate Ranked(x: Index, used: map<Bytes, int>, now: int) {
    && Sorted(x.order, RankOf(x, used))
    && forall k | k in x.storage.byKey :: k in used && used[k] < now
  }

  lemma SortedAgree(o: seq<Id>, p: map<Id, int>, q: map<Id, int>)
    requires Sorted(o, p) && forall i | i in o :: i in q && (i in p ==> q[i] == p[i])
    ensures Sorted(o, q)
  {}

  lemma SortedSuffix(o: seq<Id>, n: nat, rank: map<Id, int>)
    requires n <= |o| && Sorted(o, rank)
    ensures Sorted(o[n..], rank)
  {
    var p := o[n..];
    forall i, j | 0 <= i < j < |p| ensures p[i] in rank && p[j] in rank && rank[p[i]] < rank[p[j]] {
      assert p[i] == o[n + i] && p[j] == o[n + j];
    }
  }

  lemma {:induction false} SortedWithout(o: seq<Id>, rank: map<Id, int>, id: Id)
    requires Sorted(o, rank)
    ensures Sorted(Without(o, id), rank)
  {
    if o != [] {
      SortedSuffix(o, 1, rank);
      SortedWithout(o[1..], rank, id);
      if o[0] != id {
        var rest := Without(o[1..], id);
        forall j | 0 <= j < |rest| ensures o[0] in rank && rest[j] in rank && rank[o[0]] < rank[rest[j]] {
          assert rest[j] in o[1..];
          var k :| 0 <= k < |o[1..]| && o[1..][k] == rest[j];
          assert o[1 + k] == rest[j];
        }
        SortedCons(o[0], rest, rank);
      }
    }
  }

  lemma SortedCons(h: Id, rest: seq<Id>, rank: map<Id, int>)
    requires Sorted(rest, rank) && forall j | 0 <= j < |rest| :: h in rank && rest[j] in rank && rank[h] < rank[rest[j]]
    ensures Sorted([h] + rest, rank)
  {
    var o := [h] + rest;
    forall i, j | 0 <= i < j < |o| ensures o[i] in rank && o[j] in rank && rank[o[i]] < rank[o[j]] {
      assert o[j] == rest[j - 1];
      if i > 0 {
        assert o[i] == rest[i - 1];
      }
    }
  }

  lemma SortedSnoc(o: seq<Id>, id: Id, rank: map<Id, int>)
    requires Sorted(o, rank) && id in rank && forall i | i in o :: i in rank && rank[i] < rank[id]
    ensures Sorted(o + [id], rank)
  {}

  /** y holds some of x's nodes, with their keys. */
  ghost predicate Fewer(x: Index, y: Index) {
    forall i | i in y.storage.byId :: i in x.storage.byId && y.storage.byId[i] == x.storage.byId[i]
  }

  lemma FewerKeys(x: Index, y: Index)
    requires Coherent(x) && Coherent(y) && Fewer(x, y)
    ensures forall k | k in y.storage.byKey :: k in x.storage.byKey && x.storage.byKey[k] == y.storage.byKey[k]
  {
    forall k | k in y.storage.byKey ensures k in x.storage.byKey && x.storage.byKey[k] == y.storage.byKey[k] {
      InverseAt(y.storage, k);
      InverseAtId(x.storage, y.storage.byKey[k]);
    }
  }

  lemma FewerRanked(x: Index, y: Index, used: map<Bytes, int>, now: int)
    requires Coherent(x) && Coherent(y) && Fewer(x, y) && Ranked(x, used, now) && Sorted(y.order, RankOf(x, used))
    ensures Ranked(y, used, now)
  {
    hide Sorted;
    FewerKeys(x, y);
    SortedAgree(y.order, RankOf(x, used), RankOf(y, used));
  }

  lemma EvictRanked(x: Index, e: Done, n: nat, used: map<Bytes, int>, now: int)
    requires Coherent(x) && Coherent(e.db.index) && Evicted(x, e, n) && Ranked(x, used, now)
    ensures Ranked(e.db.index, used, now)
  {
    hide Coherent, RankOf, Sorted;
    SortedSuffix(x.order, n, RankOf(x, used));
    FewerRanked(x, e.db.index, used, now);
  }

  lemma DeleteRanked(x: Index, key: Bytes, used: map<Bytes, int>, now: int)
    requires Coherent(x) && Ranked(x, used, now)
    ensures Ranked(DelNode(x, key).1, used, now)
  {
    hide Sorted;
    var y := DelNode(x, key).1;
    DelKeepsCoherent(x, key);
    if y != x {
      SortedWithout(x.order, RankOf(x, used), x.storage.byKey[key]);
      FewerRanked(x, y, used, now);
    }
  }

  /** Using id, under its key, now. */
  lemma UseRanked(x: Index, y: Index, id: Id, key: Bytes, used: map<Bytes, int>, now: int)
    requires Coherent(x) && Coherent(y) && Ranked(x, used, now)
    requires y.order == Used(x.order, id) && id in y.storage.byId && y.storage.byId[id].userKey == key
    requires forall i | i in y.storage.byId && i != id :: i in x.storage.byId && y.storage.byId[i] == x.storage.byId[i]
    ensures Ranked(y, used[key := now], now + 1)
  {
    hide Sorted;
    var later := used[key := now];
    var rest := Without(x.order, id);
    var rank := RankOf(y, later);
    forall i | i in y.storage.byId && i != id
      ensures y.storage.byId[i].userKey != key && rank[i] == RankOf(x, used)[i] && rank[i] < now
    {
      InverseAtId(y.storage, i);
      InverseAtId(y.storage, id);
      InverseAtId(x.storage, i);
    }
    SortedWithout(x.order, RankOf(x, used), id);
    SortedAgree(rest, RankOf(x, used), rank);
    SortedSnoc(rest, id, rank);
    forall k | k in y.storage.byKey ensures k in later && later[k] < now + 1 {
      InverseAt(y.storage, k);
      if k != key {
        InverseAtId(x.storage, y.storage.byKey[k]);
      }
    }
  }

  lemma StartRanked(x: Index)
    requires Coherent(x)
    ensures Ranked(x, StartUse(x), 0)
  {
    var used := StartUse(x);
    forall i | 0 <= i < |x.order| ensures x.order[i] in RankOf(x, used) && RankOf(x, used)[x.order[i]] == i - |x.order| {
      assert x.order[i] in x.order;
      InverseAtId(x.storage, x.order[i]);
      assert Position(x.order, x.order[i]) == i;
    }
  }

  lemma StoreRanked(x: Index, c: Cmd, used: map<Bytes, int>, now: int)
    requires Coherent(x) && Ranked(x, used, now) && c.Vset?
    ensures var r := SetNode(x, c.vector, c.userKey, c.question, c.answer);
            Ranked(r.1, if r.0 == Okay then used[c.userKey := now] else used, now + 1)
  {
    hide Sorted, RankOf;
    var r := SetNode(x, c.vector, c.userKey, c.question, c.answer);
    SetKeepsCoherent(x, c.vector, c.userKey, c.question, c.answer);
    if r.0 == Okay {
      UseRanked(x, r.1, Put(x.storage, Node(0, c.userKey, c.question, c.answer)).id, c.userKey, used, now);
    } else {
      SameRank(x, r.1, used);
    }
  }

  lemma SameRank(x: Index, y: Index, used: map<Bytes, int>)
    requires y.storage == x.storage
    ensures RankOf(x, used) == RankOf(y, used)
  {}

  lemma LookRanked(x: Index, blob: Bytes, nearest: Option<Id>, used: map<Bytes, int>, now: int)
    requires Coherent(x) && Ranked(x, used, now)
    ensures var r := GetNode(x, blob, nearest);
            Ranked(r.2, if r.0 == Okay then used[x.storage.byId[nearest.value].userKey := now] else used, now + 1)
  {
    hide Sorted, RankOf;
    var r := GetNode(x, blob, nearest);
    GetKeepsCoherent(x, blob, nearest);
    if r.0 == Okay {
      UseRanked(x, r.2, nearest.value, x.storage.byId[nearest.value].userKey, used, now);
    }
  }

  lemma ServeRanked(s: Session, max: nat, r: Ask, used: map<Bytes, int>, now: int)
    requires Coherent(s.db.index) && Ranked(s.db.index, used, now)
    ensures var k := UsedBy(s, max, r);
            Ranked(Serve(s, max, r).db.index, if k.Some? then used[k.value := now] else used, now + 1)
  {
    hide Coherent, Ranked, Evict, DelNode, SetNode, GetNode;
    match r
    case Change(c) =>
      Later(s.db.index, used, now);
      if c.Vset? {
        EvictMakesRoom(s.db, max, c.userKey);
        var e := Evict(s.db, max, c.userKey);
        EvictRanked(s.db.index, e, |e.writes|, used, now);
        StoreRanked(e.db.index, c, used, now);
      } else if c.Vdel? {
        DeleteRanked(s.db.index, c.userKey, used, now + 1);
      }
    case Look(blob, nearest) => LookRanked(s.db.index, blob, nearest, used, now);
  }

  lemma Later(x: Index, used: map<Bytes, int>, now: int)
    requires Ranked(x, used, now)
    ensures Ranked(x, used, now + 1)
  {}

  /** After any run the access order lists the live keys by last use. */
  lemma {:induction false} OrderIsLastUse(db: Db, max: nat, rs: seq<Ask>)
    requires Coherent(db.index)
    ensures Ranked(ServeAll(db, max, rs).db.index, LastUse(db, max, rs), |rs|)
    decreases |rs|
  {
    hide Coherent, Ranked, Serve, StartUse;
    if rs == [] {
      StartRanked(db.index);
    } else {
      var n := |rs| - 1;
      OrderIsLastUse(db, max, rs[..n]);
      ServeRanked(ServeAll(db, max, rs[..n]), max, rs[n], LastUse(db, max, rs[..n]), n);
    }
  }

  /** Exact LRU: whatever the run, each victim of the next VSET was used before every key that stays. */
  lemma VictimsAreOldest(db: Db, max: nat, rs: seq<Ask>, key: Bytes, victim: Bytes, kept: Bytes)
    requires Coherent(db.index)
    requires var e := Evict(ServeAll(db, max, rs).db, max, key);
             Vdel(victim) in e.writes && kept in e.db.index.storage.byKey
    ensures var used := LastUse(db, max, rs);
            victim in used && kept in used && used[victim] < used[kept]
  {
    hide Coherent, Evict, LastUse, ServeAll;
    var s := ServeAll(db, max, rs);
    var e := Evict(s.db, max, key);
    OrderIsLastUse(db, max, rs);
    EvictMakesRoom(s.db, max, key);
    VictimBefore(s.db.index, e, |e.writes|, LastUse(db, max, rs), |rs|, victim, kept);
  }

  lemma VictimBefore(x: Index, e: Done, n: nat, used: map<Bytes, int>, now: int, victim: Bytes, kept: Bytes)
    requires Coherent(x) && Coherent(e.db.index) && Evicted(x, e, n) && Ranked(x, used, now)
    requires Vdel(victim) in e.writes && kept in e.db.index.storage.byKey
    ensures victim in used && kept in used && used[victim] < used[kept]
  {
    var i :| 0 <= i < n && e.writes[i] == Vdel(victim);
    var id := e.db.index.storage.byKey[kept];
    InverseAt(e.db.index.storage, kept);
    assert id in e.db.index.order;
    var j :| n <= j < |x.order| && x.order[j] == id;
    InverseAtId(x.storage, x.order[i]);
    InverseAtId(x.storage, id);
    assert RankOf(x, used)[x.order[i]] < RankOf(x, used)[x.order[j]];
  }
}
