/** The data of one server, and a write command applied to it the way replay does. */
module Databases {
  import opened ByteStrings
  import opened Commands
  import opened Views
  import opened VNodeStorages
  import opened LruOrders
  import opened VNodeIndexes

  datatype Db = Db(kv: map<Bytes, Bytes>, index: Index)

  const EMPTY_DB := Db(map[], NO_NODES)

  function EntryOf(x: Index, key: Bytes): Entry {
    match Lookup(x.storage, key)
    case None => Entry([], [], [])
    case Some(n) =>
      var vector := if x.ann.Some? && n.id in x.ann.value.vectors then x.ann.value.vectors[n.id] else [];
      Entry(vector, n.question, n.answer)
  }

  function CacheOf(x: Index): map<Bytes, Entry> {
    map key | key in x.storage.byKey :: EntryOf(x, key)
  }

  function ViewOf(db: Db): View { View(db.kv, CacheOf(db.index)) }

  /** `ok` is the reply; `done` says the data changed, so that a client write is logged. */
  datatype Applied = Applied(ok: bool, done: bool, db: Db)

  function Apply(db: Db, c: Cmd): Applied {
    match c
    case Set(key, element) =>
      if key == [] then Applied(false, false, db)
      else Applied(true, true, db.(kv := db.kv[key := element]))
    case Del(key) =>
      if key == [] then Applied(false, false, db)
      else if key !in db.kv then Applied(true, false, db)
      else Applied(true, true, db.(kv := db.kv - {key}))
    case Vset(vector, userKey, question, answer) =>
      var (st, x) := SetNode(db.index, vector, userKey, question, answer);
      Applied(st == Okay, st == Okay, db.(index := x))
    case Vdel(userKey) =>
      var (st, x) := DelNode(db.index, userKey);
      Applied(st == Okay || st == NotFound, st == Okay, db.(index := x))
  }

  /** A key whose node and vector are the same in both indexes shows the same entry. */
  lemma EntryKept(x: Index, y: Index, k: Bytes, id: Id)
    requires k in x.storage.byKey && x.storage.byKey[k] == id
    requires k in y.storage.byKey && y.storage.byKey[k] == id
    requires id in x.storage.byId && id in y.storage.byId && x.storage.byId[id] == y.storage.byId[id]
    requires x.storage.byId[id].id == id
    requires x.ann.Some? && y.ann.Some?
    requires id in x.ann.value.vectors <==> id in y.ann.value.vectors
    requires id in x.ann.value.vectors ==> x.ann.value.vectors[id] == y.ann.value.vectors[id]
    ensures EntryOf(y, k) == EntryOf(x, k)
  {}

  lemma NewEntry(y: Index, n: Node, blob: Bytes)
    requires n.userKey in y.storage.byKey && y.storage.byKey[n.userKey] == n.id
    requires n.id in y.storage.byId && y.storage.byId[n.id] == n
    requires y.ann.Some? && n.id in y.ann.value.vectors && y.ann.value.vectors[n.id] == blob
    ensures EntryOf(y, n.userKey) == Entry(blob, n.question, n.answer)
  {}

  /** Storing node n, with its vector, under an id no other key holds. */
  lemma StoredShows(x: Index, y: Index, n: Node, blob: Bytes)
    requires Inverse(x.storage) && y.ann.Some? && (x.ann.None? ==> x.storage.byId == map[])
    requires y.storage.byId == x.storage.byId[n.id := n]
    requires y.storage.byKey == x.storage.byKey[n.userKey := n.id]
    requires y.ann.value.vectors == (if x.ann.Some? then x.ann.value.vectors else map[])[n.id := blob]
    requires forall k | k in x.storage.byKey && k != n.userKey :: x.storage.byKey[k] != n.id
    ensures CacheOf(y) == CacheOf(x)[n.userKey := Entry(blob, n.question, n.answer)]
  {
    hide EntryOf, Inverse;
    NewEntry(y, n, blob);
    forall k | k in x.storage.byKey && k != n.userKey ensures EntryOf(y, k) == EntryOf(x, k) {
      InverseAt(x.storage, k);
      EntryKept(x, y, k, x.storage.byKey[k]);
    }
    assert CacheOf(y) == CacheOf(x)[n.userKey := Entry(blob, n.question, n.answer)];
  }

  lemma SetShows(x: Index, blob: Bytes, key: Bytes, q: Bytes, a: Bytes)
    requires Coherent(x)
    ensures SetNode(x, blob, key, q, a).0 == Okay ==>
              CacheOf(SetNode(x, blob, key, q, a).1) == CacheOf(x)[key := Entry(blob, q, a)]
    ensures SetNode(x, blob, key, q, a).0 != Okay ==> CacheOf(SetNode(x, blob, key, q, a).1) == CacheOf(x)
  {
    hide CacheOf;
    var r := SetNode(x, blob, key, q, a);
    if r.0 == Okay {
      var id := Put(x.storage, Node(0, key, q, a)).id;
      StoredShows(x, r.1, Node(id, key, q, a), blob);
    } else {
      EmptyAnnShows(x, r.1);
    }
  }

  /** An index created but left empty shows nothing. */
  lemma EmptyAnnShows(x: Index, y: Index)
    requires Coherent(x) && y.storage == x.storage
    requires y.ann == x.ann || (x.ann.None? && y.ann.Some? && y.ann.value.vectors == map[])
    ensures CacheOf(y) == CacheOf(x)
  {
    forall k | k in x.storage.byKey ensures EntryOf(y, k) == EntryOf(x, k) {}
  }

  lemma DelShows(x: Index, key: Bytes)
    requires Coherent(x)
    ensures CacheOf(DelNode(x, key).1) == CacheOf(x) - {key}
  {
    hide EntryOf;
    if key in x.storage.byKey {
      var id := x.storage.byKey[key];
      assert x.ann.Some?;
      RemovedShows(x, DelNode(x, key).1, key, id);
    } else {
      assert DelNode(x, key).1 == x;
      assert CacheOf(x) == CacheOf(x) - {key};
    }
  }

  /** Removing one key, its id and the id's vector. */
  lemma RemovedShows(x: Index, y: Index, key: Bytes, id: Id)
    requires Inverse(x.storage) && key in x.storage.byKey && x.storage.byKey[key] == id
    requires x.ann.Some? && y.ann.Some? && y.ann.value.vectors == x.ann.value.vectors - {id}
    requires y.storage.byId == x.storage.byId - {id} && y.storage.byKey == x.storage.byKey - {key}
    ensures CacheOf(y) == CacheOf(x) - {key}
  {
    hide EntryOf, Inverse;
    forall k | k in y.storage.byKey ensures EntryOf(y, k) == EntryOf(x, k) {
      InverseAt(x.storage, k);
      InverseAt(x.storage, key);
      EntryKept(x, y, k, x.storage.byKey[k]);
    }
    assert CacheOf(y) == CacheOf(x) - {key};
  }

  /** Applying a command keeps the structures coherent and, when it replies ok, shows clients
      exactly the command's effect; when it fails, nothing visible changes. */
  lemma ApplyShows(db: Db, c: Cmd)
    requires Coherent(db.index)
    ensures Coherent(Apply(db, c).db.index)
    ensures ViewOf(Apply(db, c).db) == if Apply(db, c).ok then Effect(ViewOf(db), c) else ViewOf(db)
    ensures !Apply(db, c).done ==> ViewOf(Apply(db, c).db) == ViewOf(db)
  {
    match c
    case Set(key, element) =>
    case Del(key) =>
      assert key !in db.kv ==> db.kv - {key} == db.kv;
    case Vset(vector, userKey, question, answer) =>
      SetShows(db.index, vector, userKey, question, answer);
      SetKeepsCoherent(db.index, vector, userKey, question, answer);
    case Vdel(userKey) =>
      DelShows(db.index, userKey);
      DelKeepsCoherent(db.index, userKey);
  }

  // ---- a whole log ------------------------------------------------------------------------

  /** `applied` counts the commands that succeeded before the first failure, if any. */
  datatype Ran = Ran(ok: bool, db: Db, applied: nat)

  function Run(db: Db, log: seq<Cmd>): (r: Ran)
    ensures r.applied <= |log| && (r.ok <==> r.applied == |log|)
    decreases |log|
  {
    if log == [] then Ran(true, db, 0)
    else
      var a := Apply(db, log[0]);
      if !a.ok then Ran(false, a.db, 0)
      else
        var r := Run(a.db, log[1..]);
        Ran(r.ok, r.db, r.applied + 1)
  }

  lemma {:induction false} RunConcat(db: Db, a: seq<Cmd>, b: seq<Cmd>)
    ensures var ra := Run(db, a);
            var rb := Run(ra.db, b);
            Run(db, a + b) == if ra.ok then Ran(rb.ok, rb.db, |a| + rb.applied) else ra
    decreases |a|
  {
    if a == [] {
      assert a + b == b;
    } else {
      assert (a + b)[1..] == a[1..] + b;
      RunConcat(Apply(db, a[0]).db, a[1..], b);
    }
  }

  lemma NoEffects(v: View, log: seq<Cmd>)
    requires log == []
    ensures Effects(v, log) == v
  {}

  /** However far a log gets, clients see the effects of exactly the commands that succeeded. */
  lemma {:induction false} RunShows(db: Db, log: seq<Cmd>)
    requires Coherent(db.index)
    ensures Coherent(Run(db, log).db.index)
    ensures ViewOf(Run(db, log).db) == Effects(ViewOf(db), log[..Run(db, log).applied])
    decreases |log|
  {
    hide ViewOf, Apply, Effects, Effect, Coherent;
    if log == [] {
      NoEffects(ViewOf(db), log[..0]);
    } else {
      ApplyShows(db, log[0]);
      var a := Apply(db, log[0]);
      if a.ok {
        RunShows(a.db, log[1..]);
        var n := Run(a.db, log[1..]).applied;
        assert log[..n + 1] == [log[0]] + log[1..][..n];
        EffectsConcat(ViewOf(db), [log[0]], log[1..][..n]);
        EffectsOne(ViewOf(db), log[0]);
      } else {
        NoEffects(ViewOf(db), log[..0]);
      }
    }
  }

  // ---- when a log can be applied in full ---------------------------------------------------

  /** Ids a log will ask for when the user keys in `cached` are already stored. */
  function NewIds(log: seq<Cmd>, cached: set<Bytes>): nat {
    if log == [] then 0
    else
      (if log[0].Vset? && log[0].userKey !in cached then 1 else 0)
      + NewIds(log[1..], KeysAfter(cached, log[0]))
  }

  function FreeIds(s: Storage): nat { if s.nextId == 0 then 0 else 0x10000 - s.nextId }

  /** Every write has a key and every vector the same dimension. */
  ghost predicate Uniform(log: seq<Cmd>, dim: nat) {
    forall i | 0 <= i < |log| :: HasKey(log[i]) && (log[i].Vset? ==> DimOf(log[i].vector) == Some(dim))
  }

  ghost predicate Accepts(x: Index, dim: nat) { x.ann.Some? ==> x.ann.value.dim == dim }

  function KeysAfter(cached: set<Bytes>, c: Cmd): set<Bytes> {
    match c
    case Vset(_, userKey, _, _) => cached + {userKey}
    case Vdel(userKey) => cached - {userKey}
    case _ => cached
  }

  lemma ApplySpends(db: Db, c: Cmd, dim: nat)
    requires Coherent(db.index) && Uniform([c], dim) && Accepts(db.index, dim)
    ensures var a := Apply(db, c);
            var isNew := c.Vset? && c.userKey !in db.index.storage.byKey;
            && Accepts(a.db.index, dim)
            && (a.ok <==> (isNew ==> FreeIds(db.index.storage) > 0))
            && (a.ok ==> FreeIds(a.db.index.storage) + (if isNew then 1 else 0) == FreeIds(db.index.storage))
            && (a.ok ==> a.db.index.storage.byKey.Keys == KeysAfter(db.index.storage.byKey.Keys, c))
  {
    assert HasKey([c][0]);
  }

  /** A log of keyed writes and vectors of one dimension is applied in full exactly when the
      ids it asks for do not exceed the ids still free. */
  lemma {:induction false} RunsInFull(db: Db, log: seq<Cmd>, dim: nat)
    requires Coherent(db.index) && Uniform(log, dim) && Accepts(db.index, dim)
    ensures Run(db, log).ok <==> NewIds(log, db.index.storage.byKey.Keys) <= FreeIds(db.index.storage)
    decreases |log|
  {
    if log != [] {
      assert Uniform([log[0]], dim) by { assert HasKey(log[0]); }
      ApplySpends(db, log[0], dim);
      ApplyShows(db, log[0]);
      var a := Apply(db, log[0]);
      if a.ok {
        RunsInFull(a.db, log[1..], dim);
      }
    }
  }
}
