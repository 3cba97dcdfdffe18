/** VNodeIndex: node storage, access order and nearest-neighbour index kept in step. */
module VNodeIndexes {
  import opened ByteStrings
  import opened VNodeStorages
  import opened LruOrders
  import RdbFormat
  import NodeSections
  import KvStores

  /** The nearest-neighbour index as a map from id to vector, with its locked dimension. */
  datatype Ann = Ann(dim: nat, vectors: map<Id, Bytes>)

  datatype Index = Index(storage: Storage, order: seq<Id>, ann: Option<Ann>)

  datatype Status = Okay | NotFound | BadArgument | BadVectorSize | DimMismatch | Failed

  const NO_NODES := Index(EMPTY, [], None)

  /** A vector blob is a positive number of four-byte floats. */
  function DimOf(blob: Bytes): Option<nat> {
    if blob == [] || |blob| % 4 != 0 then None else Some(|blob| / 4)
  }

  function SetNode(x: Index, blob: Bytes, key: Bytes, q: Bytes, a: Bytes): (Status, Index) {
    if key == [] then (BadArgument, x)
    else if DimOf(blob).None? then (BadVectorSize, x)
    else if x.ann.Some? && x.ann.value.dim != DimOf(blob).value then (DimMismatch, x)
    else
      var ann := if x.ann.Some? then x.ann.value else Ann(DimOf(blob).value, map[]);
      match Put(x.storage, Node(0, key, q, a))
      case Full => (Failed, x.(ann := Some(ann)))
      case BadValue => (BadArgument, x.(ann := Some(ann)))
      case Stored(id, s) =>
        (Okay, Index(s, Used(x.order, id), Some(ann.(vectors := ann.vectors[id := blob]))))
  }

  function Lookup(s: Storage, key: Bytes): Option<Node> {
    if key in s.byKey && s.byKey[key] in s.byId then Some(s.byId[s.byKey[key]]) else None
  }

  function DelNode(x: Index, key: Bytes): (Status, Index) {
    if key == [] then (BadArgument, x)
    else
      match Lookup(x.storage, key)
      case None => (NotFound, x)
      case Some(n) =>
        (Okay, Index(DelByUserKey(x.storage, key).value,
                     Without(x.order, n.id),
                     if x.ann.None? then None
                     else Some(x.ann.value.(vectors := x.ann.value.vectors - {n.id}))))
  }

  /** The best match the search found, if it found any. */
  datatype Hit = Hit(id: Id, distance: real)

  /** A match counts up to the caller's threshold. */
  function Within(hit: Option<Hit>, threshold: real): Option<Id> {
    if hit.Some? && hit.value.distance <= threshold then Some(hit.value.id) else None
  }

  /** VGET; `nearest` is the id of the best match within the caller's threshold, if any. */
  function GetNode(x: Index, blob: Bytes, nearest: Option<Id>): (Status, Bytes, Index) {
    if x.ann.None? then (NotFound, [], x)
    else if DimOf(blob).None? then (BadVectorSize, [], x)
    else if DimOf(blob).value != x.ann.value.dim then (DimMismatch, [], x)
    else if nearest.None? || nearest.value !in x.storage.byId then (NotFound, [], x)
    else
      (Okay, x.storage.byId[nearest.value].answer,
       if nearest.value in x.order then x.(order := Used(x.order, nearest.value)) else x)
  }

  predicate NeedsRoom(x: Index, max: nat, key: Bytes) {
    max != 0 && key != [] && Lookup(x.storage, key).None? && |x.storage.byId| >= max
  }

  /** The order from its first live id on: what remains once stale ids are dropped. */
  function DropStale(o: seq<Id>, s: Storage): (r: seq<Id>)
    ensures r != [] ==> r[0] in s.byId
    ensures forall x | x in o && x in s.byId :: x in r
  {
    if o == [] || o[0] in s.byId then o else DropStale(o[1..], s)
  }

  /** Storage, order and index hold the same ids; with no index there are no nodes. */
  ghost predicate Coherent(x: Index) {
    && Inverse(x.storage) && Fresh(x.storage)
    && Distinct(x.order)
    && (forall i :: i in x.order <==> i in x.storage.byId)
    && (x.ann.Some? ==> x.ann.value.dim > 0)
    && (x.ann.Some? ==> forall i :: i in x.ann.value.vectors <==> i in x.storage.byId)
    && (x.ann.None? ==> x.storage.byId == map[])
  }

  lemma SetKeepsCoherent(x: Index, blob: Bytes, key: Bytes, q: Bytes, a: Bytes)
    requires Coherent(x)
    ensures Coherent(SetNode(x, blob, key, q, a).1)
  {
    var y := SetNode(x, blob, key, q, a).1;
    var n := Node(0, key, q, a);
    if Put(x.storage, n).Stored? {
      PutKeepsInverse(x.storage, n);
      UsedDistinct(x.order, Put(x.storage, n).id);
    }
  }

  lemma DelKeepsCoherent(x: Index, key: Bytes)
    requires Coherent(x)
    ensures Coherent(DelNode(x, key).1)
  {
    if Lookup(x.storage, key).Some? {
      DelKeepsInverse(x.storage, key);
      WithoutDistinct(x.order, x.storage.byKey[key]);
    }
  }

  lemma GetKeepsCoherent(x: Index, blob: Bytes, nearest: Option<Id>)
    requires Coherent(x)
    ensures Coherent(GetNode(x, blob, nearest).2)
  {
    if nearest.Some? {
      UsedDistinct(x.order, nearest.value);
    }
  }

  class VNodeIndex {
    const storage: VNodeStorage
    const lru: LruOrder
    const maxEntries: nat
    var ann: Option<Ann>

    ghost function Model(): Index
      reads this, storage, lru
    {
      Index(storage.Model(), lru.order, ann)
    }

    /** Ids in the access order are nonzero, as every id ever given out is. */
    ghost predicate Valid()
      reads this, storage, lru
    {
      lru.Valid() && 0 !in lru.order && (forall i | i in storage.byId :: i != 0 && storage.byId[i].id == i)
      && (forall k | k in storage.byKey :: storage.byKey[k] != 0)
    }

    constructor (maxEntries: nat)
      ensures Valid() && Model() == NO_NODES && this.maxEntries == maxEntries
      ensures fresh(storage) && fresh(lru)
    {
      this.maxEntries := maxEntries;
      storage := new VNodeStorage();
      lru := new LruOrder();
      ann := None;
    }

    method NeedsRoomFor(key: Bytes) returns (r: bool)
      ensures r == NeedsRoom(Model(), maxEntries, key)
    {
      if maxEntries == 0 || key == [] {
        return false;
      }
      var existing := storage.GetByUserKey(key);
      if existing.Some? {
        return false;
      }
      r := |storage.byId| >= maxEntries;
    }

    /** The victim is the least recently used live node; the loop bound of 65535 is never what
        stops the search, because the order holds distinct nonzero uint16 ids. */
    method PeekLruUserKey() returns (st: Status, key: Bytes)
      requires Valid()
      modifies lru
      ensures Valid() && Model() == old(Model()).(order := DropStale(old(lru.order), storage.Model()))
      ensures lru.order == [] ==> st == NotFound
      ensures lru.order != [] ==> st == Okay && key == storage.byId[lru.order[0]].userKey
    {
      var i := 0;
      OrderBound(lru.order);
      while i < 65535
        invariant 0 <= i <= 65535
        invariant Valid() && storage.Model() == old(storage.Model()) && ann == old(ann)
        invariant DropStale(lru.order, storage.Model()) == DropStale(old(lru.order), storage.Model())
        invariant |lru.order| <= 65535 - i
      {
        var id := lru.PeekLru();
        if id.None? {
          return NotFound, [];
        }
        var node := storage.GetById(id.value);
        if node.Some? {
          return Okay, node.value.userKey;
        }
        var dropped := lru.PopLru();
        i := i + 1;
      }
      return NotFound, [];
    }

    method Set(blob: Bytes, key: Bytes, q: Bytes, a: Bytes) returns (st: Status)
      requires Valid()
      modifies this, storage, lru
      ensures Valid() && (st, Model()) == SetNode(old(Model()), blob, key, q, a)
    {
      if key == [] {
        return BadArgument;
      }
      if blob == [] || |blob| % 4 != 0 {
        return BadVectorSize;
      }
      var dim := |blob| / 4;
      if ann.Some? {
        if ann.value.dim != dim {
          return DimMismatch;
        }
      } else {
        ann := Some(Ann(dim, map[]));
      }
      var ok, full, id := storage.PutNode(Node(0, key, q, a));
      if !ok {
        return if full then Failed else BadArgument;
      }
      ann := Some(ann.value.(vectors := ann.value.vectors[id := blob]));
      lru.Push(id);
      return Okay;
    }

    method Get(blob: Bytes, hit: Option<Hit>, threshold: real) returns (st: Status, answer: Bytes)
      requires Valid()
      modifies lru
      ensures Valid() && (st, answer, Model()) == GetNode(old(Model()), blob, Within(hit, threshold))
    {
      if ann.None? {
        return NotFound, [];
      }
      if blob == [] || |blob| % 4 != 0 {
        return BadVectorSize, [];
      }
      if |blob| / 4 != ann.value.dim {
        return DimMismatch, [];
      }
      if hit.None? || hit.value.distance > threshold {
        return NotFound, [];
      }
      var node := storage.GetById(hit.value.id);
      if node.None? {
        return NotFound, [];
      }
      lru.Touch(hit.value.id);
      return Okay, node.value.answer;
    }

    method Del(key: Bytes) returns (st: Status)
      requires Valid()
      modifies this, storage, lru
      ensures Valid() && (st, Model()) == DelNode(old(Model()), key)
    {
      if key == [] {
        return BadArgument;
      }
      var node := storage.GetByUserKey(key);
      if node.None? {
        return NotFound;
      }
      var had := lru.Erase(node.value.id);
      if ann.Some? {
        ann := Some(ann.value.(vectors := ann.value.vectors - {node.value.id}));
      }
      var ok := storage.DelUserKey(key);
      return if ok then Okay else NotFound;
    }

    method Clear()
      modifies this, storage, lru
      ensures Valid() && Model() == NO_NODES
    {
      storage.Clear();
      lru.Clear();
      ann := None;
    }

    // ---- the NODES section ---------------------------------------------------------------------------

    /** Writes the nodes in whatever order the storage walks them. */
    method DumpNodes() returns (out: Bytes, ghost order: seq<Id>)
      ensures KvStores.Enumerates(order, storage.byId.Keys) && out == NodeSections.NodeRecords(storage.Model(), order)
    {
      hide RdbFormat.Str, NodeSections.EncodeNode, NodeSections.NodeRecords, KvStores.Enumerates;
      out, order := [], [];
      var todo := storage.byId.Keys;
      NodeSections.NoRecords(storage.Model());
      NoneWalked(storage.byId.Keys - todo);
      while todo != {}
        invariant todo <= storage.byId.Keys && (forall i | i in order :: i in storage.byId)
        invariant KvStores.Enumerates(order, storage.byId.Keys - todo)
        invariant out == NodeSections.NodeRecords(storage.Model(), order)
        decreases todo
      {
        var id :| id in todo;
        var bytes := NodeSections.Encode(storage.byId[id]);
        NodeSections.RecordsSnoc(storage.Model(), order, id);
        out := out + RdbFormat.Str(bytes);
        KvStores.EnumeratesSnoc(order, storage.byId.Keys - todo, id);
        assert storage.byId.Keys - (todo - {id}) == (storage.byId.Keys - todo) + {id};
        order := order + [id];
        todo := todo - {id};
      }
      assert storage.byId.Keys - {} == storage.byId.Keys;
    }

    /** The access order starts over in the order the storage walks its nodes. */
    method RebuildLruFromStorage()
      requires forall i | i in storage.byId :: i != 0
      modifies lru
      ensures lru.Valid() && 0 !in lru.order && KvStores.Enumerates(lru.order, storage.byId.Keys)
    {
      hide KvStores.Enumerates, Without;
      lru.Clear();
      var all := storage.byId.Keys;
      var todo := all;
      NoneWalked(all - todo);
      while todo != {}
        invariant todo <= all && lru.Valid() && 0 !in lru.order
        invariant KvStores.Enumerates(lru.order, all - todo)
        decreases todo
      {
        var id :| id in todo;
        NextWalked(lru.order, all - todo, id);
        assert all - (todo - {id}) == (all - todo) + {id};
        lru.Push(id);
        todo := todo - {id};
      }
      assert all - {} == all;
    }

    /** What a load of node records leaves behind. */
    twostate predicate NodesAre(r: NodeSections.NodesLoaded, nextId: Id, ok: bool)
      reads this, storage, lru
    {
      && Valid() && ann == old(ann) && ok == r.ok
      && if ok then storage.Model() == r.storage.(nextId := if nextId == 0 then 1 else nextId)
                    && KvStores.Enumerates(lru.order, storage.byId.Keys)
         else storage.Model() == r.storage && lru.order == []
    }

    /** The record loop shared by both loaders. */
    method LoadLoop(d: Bytes, count: nat) returns (ok: bool, end: nat)
      modifies storage, lru
      ensures NodeSections.NodesLoaded(ok, storage.Model(), end) == NodeSections.LoadNodeRecords(d, 0, count, EMPTY)
      ensures lru.Valid() && lru.order == [] && end <= |d| && Inverse(storage.Model())
    {
      hide RdbFormat.TakeStr, NodeSections.DecodeNode, Restore, Inverse;
      storage.Clear();
      lru.Clear();
      EmptyInverse();
      NodeSections.LoadedInverse(d, 0, count, EMPTY);
      var pos: nat := 0;
      var i := 0;
      while i < count
        invariant 0 <= i <= count && pos <= |d| && lru.Valid() && lru.order == []
        invariant NodeSections.LoadNodeRecords(d, pos, count - i, storage.Model()) == NodeSections.LoadNodeRecords(d, 0, count, EMPTY)
      {
        var record := RdbFormat.TakeStr(d, pos);
        if record.None? {
          return false, pos;
        }
        var node := NodeSections.Decode(record.value.0);
        if node.None? {
          return false, pos;
        }
        var restored := storage.RestoreNode(node.value);
        if !restored {
          return false, pos;
        }
        pos := record.value.1;
        i := i + 1;
      }
      return true, pos;
    }

    method FinishLoad(nextId: Id)
      requires lru.Valid() && lru.order == [] && Inverse(storage.Model())
      modifies storage, lru
      ensures Valid() && storage.Model() == old(storage.Model()).(nextId := if nextId == 0 then 1 else nextId)
      ensures KvStores.Enumerates(lru.order, storage.byId.Keys)
    {
      InverseNonzero(storage.Model());
      storage.SetNextId(if nextId == 0 then 1 else nextId);
      RebuildLruFromStorage();
    }

    /** Buffered-file loader: reads on from the section's offset. */
    method LoadNodes(d: Bytes, count: nat, nextId: Id) returns (ok: bool)
      modifies storage, lru
      ensures NodesAre(NodeSections.LoadNodeRecords(d, 0, count, EMPTY), nextId, ok)
    {
      hide NodeSections.LoadNodeRecords, Inverse;
      var end;
      ok, end := LoadLoop(d, count);
      InverseNonzero(storage.Model());
      if ok {
        FinishLoad(nextId);
      }
    }

    /** Mapped loader: the section must also be used up exactly. */
    method LoadNodesFrom(d: Bytes, count: nat, nextId: Id) returns (ok: bool)
      modifies storage, lru
      ensures var r := NodeSections.LoadNodeRecords(d, 0, count, EMPTY);
              NodesAre(r.(ok := r.ok && r.end == |d|), nextId, ok)
    {
      hide NodeSections.LoadNodeRecords, Inverse;
      var end;
      ok, end := LoadLoop(d, count);
      InverseNonzero(storage.Model());
      if !ok || end != |d| {
        return false;
      }
      FinishLoad(nextId);
    }

    /** The restored nearest-neighbour index, if the library could restore one. */
    method LoadIndex(restored: Option<Ann>) returns (ok: bool)
      modifies this`ann
      ensures ok == restored.Some? && ann == if ok then restored else old(ann)
    {
      if restored.None? {
        return false;
      }
      ann := restored;
      return true;
    }
  }

  lemma NoneWalked(walked: set<Id>)
    ensures walked == {} ==> KvStores.Enumerates([], walked)
  {}

  lemma NextWalked(order: seq<Id>, walked: set<Id>, id: Id)
    requires KvStores.Enumerates(order, walked) && id !in walked
    ensures KvStores.Enumerates(Used(order, id), walked + {id}) && (0 !in order && id != 0 ==> 0 !in Used(order, id))
  {
    assert Without(order, id) == order;
    KvStores.EnumeratesSnoc(order, walked, id);
  }

  lemma EmptyInverse()
    ensures Inverse(EMPTY)
  {}

  lemma InverseNonzero(s: Storage)
    requires Inverse(s)
    ensures (forall i | i in s.byId :: i != 0 && s.byId[i].id == i) && forall k | k in s.byKey :: s.byKey[k] != 0
  {}
}
