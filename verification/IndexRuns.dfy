/** Index coherence over any sequence of operations, loads included. */
module IndexRuns {
  import opened ByteStrings
  import opened VNodeStorages
  import opened LruOrders
  import opened VNodeIndexes
  import opened Databases
  import opened Snapshots

  datatype Op =
    | Set(blob: Bytes, key: Bytes, question: Bytes, answer: Bytes)
    | Get(blob: Bytes, nearest: Option<Id>)
    | Del(key: Bytes)
    | Clear
    | Load(img: Bytes, mapped: bool, hint: seq<Id>)

  ghost function After(x: Index, op: Op): Index {
    match op
    case Set(blob, key, question, answer) => SetNode(x, blob, key, question, answer).1
    case Get(blob, nearest) => GetNode(x, blob, nearest).2
    case Del(key) => DelNode(x, key).1
    case Clear => NO_NODES
    case Load(img, mapped, hint) => LoadImage(img, mapped, Db(map[], x), hint).db.index
  }

  ghost function AfterAll(x: Index, ops: seq<Op>): Index
    decreases |ops|
  {
    if ops == [] then x else After(AfterAll(x, ops[..|ops| - 1]), ops[|ops| - 1])
  }

  /** A load that succeeds, of an image whose next id is above its nodes' ids and whose vectors are theirs. */
  ghost predicate Sensible(x: Index, op: Op) {
    op.Load? ==>
      var l := LoadImage(op.img, op.mapped, Db(map[], x), op.hint);
      var y := l.db.index;
      && l.ok && (forall i | i in y.storage.byId :: i < y.storage.nextId)
      && (if y.ann.None? then y.storage.byId == map[] else y.ann.value.vectors.Keys == y.storage.byId.Keys)
  }

  lemma AfterCoherent(x: Index, op: Op)
    requires Coherent(x) && Sensible(x, op)
    ensures Coherent(After(x, op))
  {
    match op
    case Set(blob, key, question, answer) => SetKeepsCoherent(x, blob, key, question, answer);
    case Get(blob, nearest) => GetKeepsCoherent(x, blob, nearest);
    case Del(key) => DelKeepsCoherent(x, key);
    case Clear =>
    case Load(img, mapped, hint) =>
      hide LoadImage, Coherent;
      LoadedCoherent(img, mapped, Db(map[], x), hint);
  }

  /** After any sequence of operations whose loads are sensible the two storage indexes are mutual
      inverses, live ids are below the next one, and storage, access order and vectors hold the same ids. */
  lemma {:induction false} AlwaysCoherent(x: Index, ops: seq<Op>)
    requires Coherent(x)
    requires forall i | 0 <= i < |ops| :: Sensible(AfterAll(x, ops[..i]), ops[i])
    ensures Coherent(AfterAll(x, ops))
    decreases |ops|
  {
    hide Coherent, After, Sensible;
    if ops != [] {
      var n := |ops| - 1;
      forall i | 0 <= i < n ensures Sensible(AfterAll(x, ops[..n][..i]), ops[..n][i]) {
        assert ops[..n][..i] == ops[..i];
        assert Sensible(AfterAll(x, ops[..i]), ops[i]);
      }
      AlwaysCoherent(x, ops[..n]);
      assert Sensible(AfterAll(x, ops[..n]), ops[n]);
      AfterCoherent(AfterAll(x, ops[..n]), ops[n]);
    }
  }
}
