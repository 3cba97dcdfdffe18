/** SnapshotManager as an object: writing the image section by section, the two loaders, and the life
    of a background save. */
module SnapshotManagers {
  import opened ByteStrings
  import opened RdbFormat
  import opened VNodeStorages
  import opened LruOrders
  import opened VNodeIndexes
  import opened Databases
  import opened NodeSections
  import opened Snapshots
  import KvStores

  datatype SaveStatus = Started | InProgress | NotForked

  /** What waitpid finds: still running, no such child, or an exit. */
  datatype Waited = Running | Gone | Exited(ok: bool)

  class SnapshotManager {
    const index: VNodeIndex
    const kv: KvStores.KvStore
    var disk: map<Bytes, Bytes>                 // files by path
    var saving: Option<(Bytes, Bytes)>          // the child's path, and what it is writing
    ghost var savedFrom: Option<(Db, Orders)>   // the data it was forked from

    ghost function Data(): Db
      reads kv, index, index.storage, index.lru
    {
      Db(kv.pairs, index.Model())
    }

    /** A running child writes the image of the data at the fork. */
    ghost predicate Valid()
      reads this`saving, this`savedFrom
    {
      && saving.Some? == savedFrom.Some?
      && (saving.Some? ==> var (db, o) := savedFrom.value; OrdersOf(o, db) && saving.value.1 == Image(db, o))
    }

    constructor (index: VNodeIndex, kv: KvStores.KvStore, disk: map<Bytes, Bytes>)
      ensures Valid() && saving == None && this.index == index && this.kv == kv && this.disk == disk
    {
      this.index, this.kv, this.disk, saving, savedFrom := index, kv, disk, None, None;
    }

    // ---- saving ------------------------------------------------------------------------------------------

    /** The sections are written one after the other behind room for the header, which is written last
        from the positions they ended up at. */
    method WriteImage() returns (img: Bytes, ghost o: Orders)
      requires index.Valid()
      ensures OrdersOf(o, Data()) && img == Image(Data(), o)
    {
      hide KvStores.Section, NodeRecords, AnnSection, HeaderBytes, AnnPairs, KvStores.Enumerates;
      ghost var db := Data();
      img := seq(HEADER_BYTES, _ => 0);
      ghost var kvOrder, nodeOrder, annOrder;
      var kvBytes, nodeBytes, annBytes;
      kvBytes, kvOrder := kv.Dump();
      var kvToc := Toc(|img|, |kvBytes|);
      img := img + kvBytes;
      nodeBytes, nodeOrder := index.DumpNodes();
      var nodesToc := Toc(|img|, |nodeBytes|);
      img := img + nodeBytes;
      annBytes, annOrder := [], [];
      var annToc := Toc(0, 0);
      if index.ann.Some? {
        annOrder, annBytes := WriteAnn(index.ann.value);
        annToc := Toc(|img|, |annBytes|);
        img := img + annBytes;
      }
      o := Orders(kvOrder, nodeOrder, annOrder);
      var header := Header(VERSION, if annToc.length > 0 then FLAG_HAS_USEARCH else 0,
                           if index.ann.None? then 0 else index.ann.value.dim, index.storage.nextId, 0,
                           |kv.pairs|, |index.storage.byId|, kvToc, nodesToc, annToc);
      assert img[HEADER_BYTES..] == kvBytes + nodeBytes + annBytes;
      img := HeaderBytes(header) + img[HEADER_BYTES..];
      assert header == HeaderOf(db, |kvBytes|, |nodeBytes|, |annBytes|);
      assert HeaderBytes(header) + (kvBytes + nodeBytes + annBytes) == HeaderBytes(header) + kvBytes + nodeBytes + annBytes;
    }

    /** The stand-in for the library's own format. */
    method WriteAnn(ann: Ann) returns (ghost order: seq<Bytes>, bytes: Bytes)
      ensures KvStores.Enumerates(order, AnnPairs(ann.vectors).Keys)
      ensures (forall k | k in order :: k in AnnPairs(ann.vectors)) && bytes == AnnSection(ann, order)
    {
      var pairs := new KvStores.KvStore();
      pairs.pairs := AnnPairs(ann.vectors);
      bytes, order := pairs.Dump();
      bytes := Le(ann.dim, 8) + bytes;
    }

    /** Writes path.tmp, syncs and renames: the path has either what it had or the whole new image. */
    method SaveToPath(path: Bytes, ioOk: bool) returns (ok: bool, ghost o: Orders)
      requires index.Valid()
      modifies this`disk
      ensures ok == ioOk && OrdersOf(o, Data())
      ensures disk == if ok then old(disk)[path := Image(Data(), o)] else old(disk)
    {
      var img;
      img, o := WriteImage();
      if !ioOk {
        return false, o;
      }
      disk := disk[path := img];
      return true, o;
    }

    // ---- the background save -------------------------------------------------------------------------------

    /** At most one child. Its memory is the data at the fork, whatever is written afterwards. */
    method BackgroundSaveToPath(path: Bytes, forkOk: bool) returns (st: SaveStatus)
      requires Valid() && index.Valid()
      modifies this`saving, this`savedFrom
      ensures Valid()
      ensures st == if old(saving).Some? then InProgress else if forkOk then Started else NotForked
      ensures st != Started ==> saving == old(saving) && savedFrom == old(savedFrom)
      ensures st == Started ==> saving.Some? && saving.value.0 == path && savedFrom.Some? && savedFrom.value.0 == Data()
    {
      hide Image, OrdersOf;
      if saving.Some? {
        return InProgress;
      }
      if !forkOk {
        return NotForked;
      }
      ghost var o;
      var img;
      img, o := WriteImage();
      saving := Some((path, img));
      savedFrom := Some((Data(), o));
      return Started;
    }

    /** What waitpid found decides. A child that is gone is forgotten and nothing is reported; one that has
        exited is reported with its path, and a good one has replaced the file. */
    method ReapSaveChild(found: Waited) returns (done: Option<(bool, Bytes)>)
      requires Valid()
      modifies this`saving, this`savedFrom, this`disk
      ensures Valid()
      ensures old(saving).None? || found.Running? ==>
                done == None && saving == old(saving) && savedFrom == old(savedFrom) && disk == old(disk)
      ensures old(saving).Some? && found.Gone? ==> done == None && saving == None && disk == old(disk)
      ensures old(saving).Some? && found.Exited? ==>
                && done == Some((found.ok, old(saving).value.0)) && saving == None
                && disk == (if found.ok then old(disk)[old(saving).value.0 := old(saving).value.1] else old(disk))
    {
      if saving.None? || found.Running? {
        return None;
      }
      var path, img := saving.value.0, saving.value.1;
      saving, savedFrom := None, None;
      if found.Gone? {
        return None;
      }
      if found.ok {
        disk := disk[path := img];
      }
      return Some((found.ok, path));
    }

    // ---- loading -----------------------------------------------------------------------------------------------

    /** The buffered loader: seek to each section and read on. */
    method LoadFromFile(img: Bytes) returns (ok: bool, ghost hint: seq<Id>)
      requires index.Valid()
      modifies kv, index, index.storage, index.lru
      ensures index.Valid() && Loads(ok, Data()) == LoadImage(img, false, old(Data()), hint)
    {
      hide KvStores.LoadSection, LoadNodeRecords, LoadAnn, ReadHeader, Region, LoadIndexPart, VNodeIndex.Valid;
      hint := [];
      var h := ReadHeaderBytes(img);
      if h.None? {
        return false, [];
      }
      var d := Region(img, h.value.kv, false);
      if d.None? {
        return false, [];
      }
      kv.Clear();
      var loaded := kv.Load(d.value);
      if !loaded || |kv.pairs| != h.value.kvCount {
        return false, [];
      }
      ok, hint := LoadIndexParts(img, false, h.value);
      OldKvGone(img, false, h.value, kv.pairs, old(Data()), hint);
    }

    /** The mapped loader: each section is seen alone and must be used up. */
    method LoadFromMapped(img: Bytes) returns (ok: bool, ghost hint: seq<Id>)
      requires index.Valid()
      modifies kv, index, index.storage, index.lru
      ensures index.Valid() && Loads(ok, Data()) == LoadImage(img, true, old(Data()), hint)
    {
      hide KvStores.LoadSection, LoadNodeRecords, LoadAnn, ParseHeader, Region, LoadIndexPart, VNodeIndex.Valid;
      hint := [];
      var h := ParseHeaderBytes(img);
      if h.None? {
        return false, [];
      }
      var d := Region(img, h.value.kv, true);
      if d.None? {
        return false, [];
      }
      kv.Clear();
      var loaded := kv.LoadFrom(d.value);
      if !loaded || |kv.pairs| != h.value.kvCount {
        return false, [];
      }
      ok, hint := LoadIndexParts(img, true, h.value);
      OldKvGone(img, true, h.value, kv.pairs, old(Data()), hint);
    }

    /** The node section, then the nearest-neighbour index. */
    method LoadIndexParts(img: Bytes, mapped: bool, h: Header) returns (ok: bool, ghost hint: seq<Id>)
      requires index.Valid()
      modifies index, index.storage, index.lru
      ensures index.Valid() && Loads(ok, Data()) == LoadIndexPart(img, mapped, h, kv.pairs, old(Data()), hint)
    {
      hide LoadNodeRecords, LoadAnn, Region, OrderOf;
      hint := [];
      var d := Region(img, h.nodes, mapped);
      if d.None? {
        return false, [];
      }
      index.Clear();
      if mapped {
        ok := index.LoadNodesFrom(d.value, h.nodeCount, h.nextId % 0x10000);
      } else {
        ok := index.LoadNodes(d.value, h.nodeCount, h.nextId % 0x10000);
      }
      if !ok {
        return false, [];
      }
      hint := index.lru.order;
      Hinted(index.storage.byId.Keys, hint);
      if |index.storage.byId| != h.nodeCount {
        return false, hint;
      }
      if h.dim == 0 {
        return true, hint;
      }
      if h.ann.length == 0 {
        return false, hint;
      }
      var a := Region(img, h.ann, false);
      if a.None? {
        return false, hint;
      }
      ok := index.LoadIndex(LoadAnn(a.value, h.dim));
    }

    /** The mapped loader first; if it fails, the buffered one over what it left behind. */
    method LoadFromPath(path: Bytes) returns (ok: bool, ghost hint: Walk)
      requires index.Valid()
      modifies kv, index, index.storage, index.lru
      ensures index.Valid()
      ensures path !in disk ==> !ok && Data() == old(Data())
      ensures path in disk ==> Loads(ok, Data()) == LoadPath(disk[path], old(Data()), hint)
    {
      hide LoadImage, VNodeIndex.Valid;
      ghost var first, second: seq<Id> := [], [];
      if path !in disk {
        return false, Walk([], []);
      }
      ok, first := LoadFromMapped(disk[path]);
      if !ok {
        ok, second := LoadFromFile(disk[path]);
      }
      hint := Walk(first, second);
    }
  }

  lemma OldKvGone(img: Bytes, mapped: bool, h: Header, pairs: Pairs, before: Db, hint: seq<Id>)
    ensures LoadIndexPart(img, mapped, h, pairs, before, hint) == LoadIndexPart(img, mapped, h, pairs, before.(kv := pairs), hint)
  {
    hide LoadNodeRecords, LoadAnn, Region, OrderOf;
  }

  lemma Hinted(ids: set<Id>, hint: seq<Id>)
    requires KvStores.Enumerates(hint, ids)
    ensures OrderOf(ids, hint) == hint
  {}
}
