/** The snapshot image of a server's data, and the two loaders that must agree on it. */
module Snapshots {
  import opened ByteStrings
  import opened RdbFormat
  import opened VNodeStorages
  import opened LruOrders
  import opened VNodeIndexes
  import opened Databases
  import opened NodeSections
  import KvStores

  type Pairs = KvStores.Pairs

  // ---- the nearest-neighbour section ---------------------------------------------------------------
  // The library's own file format is not part of this model; any format with the round trip of
  // AnnRoundTrip would do. This one stores the dimension and the vectors keyed by two-byte ids.

  function IdKey(i: Id): Bytes { [(i / 256) as byte, (i % 256) as byte] }

  function KeyId(k: Bytes): Id { if |k| == 2 then k[0] as int * 256 + k[1] as int else 0 }

  function AnnPairs(v: map<Id, Bytes>): Pairs {
    map k | k in (set i | i in v :: IdKey(i)) :: if KeyId(k) in v then v[KeyId(k)] else []
  }

  function PairsAnn(p: Pairs): map<Id, Bytes> {
    map i | i in (set k | k in p :: KeyId(k)) :: if IdKey(i) in p then p[IdKey(i)] else []
  }

  lemma PairsOfAnn(v: map<Id, Bytes>)
    ensures PairsAnn(AnnPairs(v)) == v
  {
    var p := AnnPairs(v);
    forall i | i in v ensures KeyId(IdKey(i)) == i && IdKey(i) in p && p[IdKey(i)] == v[i] {}
    forall k | k in p ensures KeyId(k) in v {}
    forall i | i in v ensures i in PairsAnn(p) {
      assert IdKey(i) in p;
    }
    assert PairsAnn(p).Keys == v.Keys;
  }

  function AnnSection(a: Ann, order: seq<Bytes>): Bytes
    requires forall k | k in order :: k in AnnPairs(a.vectors)
  {
    Le(a.dim, 8) + KvStores.Section(AnnPairs(a.vectors), order)
  }

  function LoadAnn(d: Bytes, dim: nat): Option<Ann> {
    if |d| < 8 || Field(d, 0, 8) != dim then None
    else
      var r := KvStores.LoadSection(d[8..], map[]);
      if r.ok then Some(Ann(dim, PairsAnn(r.pairs))) else None
  }

  lemma AnnRoundTrip(a: Ann, order: seq<Bytes>)
    requires a.dim < U64 && KvStores.Fits(AnnPairs(a.vectors))
    requires KvStores.Enumerates(order, AnnPairs(a.vectors).Keys)
    ensures LoadAnn(AnnSection(a, order), a.dim) == Some(a)
  {
    hide AnnPairs, PairsAnn, Le, FromLe, KvStores.Section, KvStores.LoadSection;
    Spans();
    var d := AnnSection(a, order);
    var tail := KvStores.Section(AnnPairs(a.vectors), order);
    assert d[0..8] == Le(a.dim, 8) && d[8..] == tail;
    FieldAt(d, 0, a.dim, 8);
    KvStores.SectionRoundTrip(AnnPairs(a.vectors), order, map[]);
    PairsOfAnn(a.vectors);
  }

  // ---- saving ------------------------------------------------------------------------------------------

  /** The order in which each hash map happens to be walked. */
  datatype Orders = Orders(kv: seq<Bytes>, nodes: seq<Id>, ann: seq<Bytes>)

  ghost predicate OrdersOf(o: Orders, db: Db) {
    && KvStores.Enumerates(o.kv, db.kv.Keys)
    && KvStores.Enumerates(o.nodes, db.index.storage.byId.Keys)
    && (db.index.ann.Some? ==> KvStores.Enumerates(o.ann, AnnPairs(db.index.ann.value.vectors).Keys))
  }

  function AnnBytes(x: Index, order: seq<Bytes>): Bytes
    requires x.ann.Some? ==> forall k | k in order :: k in AnnPairs(x.ann.value.vectors)
  {
    if x.ann.None? then [] else AnnSection(x.ann.value, order)
  }

  function Dim(x: Index): nat { if x.ann.None? then 0 else x.ann.value.dim }

  function HeaderOf(db: Db, kvLen: nat, nodesLen: nat, annLen: nat): Header {
    Header(VERSION, if annLen > 0 then FLAG_HAS_USEARCH else 0, Dim(db.index), db.index.storage.nextId, 0,
           |db.kv|, |db.index.storage.byId|,
           Toc(HEADER_BYTES, kvLen), Toc(HEADER_BYTES + kvLen, nodesLen),
           if db.index.ann.None? then Toc(0, 0) else Toc(HEADER_BYTES + kvLen + nodesLen, annLen))
  }

  ghost function Image(db: Db, o: Orders): Bytes
    requires OrdersOf(o, db)
  {
    var kv := KvStores.Section(db.kv, o.kv);
    var nodes := NodeRecords(db.index.storage, o.nodes);
    var ann := AnnBytes(db.index, o.ann);
    HeaderBytes(HeaderOf(db, |kv|, |nodes|, |ann|)) + kv + nodes + ann
  }

  lemma ImageSize(db: Db, o: Orders)
    requires OrdersOf(o, db)
    ensures |Image(db, o)| >= 96
  {
    hide KvStores.Section, NodeRecords, AnnBytes, HeaderOf;
  }

  // ---- loading -----------------------------------------------------------------------------------------

  const SEEK_LIMIT: nat := 0x8000_0000_0000_0000   // file positions are signed 64-bit

  /** The bytes a loader reads a section from: the mapped loader sees the section alone, the
      buffered one everything from its offset on. None is a failed seek. */
  function Region(img: Bytes, t: Toc, mapped: bool): Option<Bytes> {
    if mapped then
      if t.length == 0 then Some([])
      else if t.offset + t.length <= |img| then Some(img[t.offset..t.offset + t.length])
      else None
    else if t.offset >= SEEK_LIMIT then None
    else if t.offset >= |img| then Some([])
    else Some(img[t.offset..])
  }

  /** Some enumeration of the ids: the suggested one if it is one. */
  ghost function OrderOf(ids: set<Id>, hint: seq<Id>): (o: seq<Id>)
    ensures KvStores.Enumerates(o, ids)
  {
    if KvStores.Enumerates(hint, ids) then hint else AnyOrder(ids)
  }

  ghost function AnyOrder(ids: set<Id>): (o: seq<Id>)
    ensures KvStores.Enumerates(o, ids)
  {
    if ids == {} then []
    else
      var i :| i in ids;
      KvStores.EnumeratesSnoc(AnyOrder(ids - {i}), ids - {i}, i);
      assert (ids - {i}) + {i} == ids;
      AnyOrder(ids - {i}) + [i]
  }

  /** What a load leaves behind, successful or not. */
  datatype Loads = Loads(ok: bool, db: Db)

  /** Load the KV section, then the nodes, then the index; `hint` is the order in which the
      access order is rebuilt from the loaded nodes. */
  ghost function LoadImage(img: Bytes, mapped: bool, before: Db, hint: seq<Id>): Loads {
    match (if mapped then ParseHeader(img) else ReadHeader(img))
    case None => Loads(false, before)
    case Some(h) =>
      match Region(img, h.kv, mapped)
      case None => Loads(false, before)
      case Some(d) =>
        var kv := KvStores.LoadSection(d, map[]);
        if !kv.ok || (mapped && kv.end != |d|) || |kv.pairs| != h.kvCount
        then Loads(false, before.(kv := kv.pairs))
        else LoadIndexPart(img, mapped, h, kv.pairs, before, hint)
  }

  ghost function LoadIndexPart(img: Bytes, mapped: bool, h: Header, kv: Pairs, before: Db, hint: seq<Id>): Loads {
    match Region(img, h.nodes, mapped)
    case None => Loads(false, before.(kv := kv))
    case Some(d) =>
      var n := LoadNodeRecords(d, 0, h.nodeCount, EMPTY);
      if !n.ok || (mapped && n.end != |d|) then Loads(false, Db(kv, Index(n.storage, [], None)))
      else
        var id: Id := h.nextId % 0x10000;
        var s := n.storage.(nextId := if id == 0 then 1 else id);
        var x := Index(s, OrderOf(s.byId.Keys, hint), None);
        if |s.byId| != h.nodeCount then Loads(false, Db(kv, x))
        else if h.dim == 0 then Loads(true, Db(kv, x))
        else if h.ann.length == 0 then Loads(false, Db(kv, x))
        else
          match Region(img, h.ann, false)
          case None => Loads(false, Db(kv, x))
          case Some(a) =>
            var ann := LoadAnn(a, h.dim);
            Loads(ann.Some?, Db(kv, x.(ann := ann)))
  }

  /** The order in which the nodes are walked by the first loader, and by the second if it is needed. */
  datatype Walk = Walk(first: seq<Id>, second: seq<Id>)

  /** LoadFromPath: the mapped loader first, the buffered one over what it left behind if that fails. */
  ghost function LoadPath(img: Bytes, before: Db, hint: Walk): Loads {
    var m := LoadImage(img, true, before, hint.first);
    if m.ok then m else LoadImage(img, false, m.db, hint.second)
  }

  // ---- the laws ----------------------------------------------------------------------------------------

  /** Every length fits the field it is written in. */
  ghost predicate ImageFits(db: Db, o: Orders)
    requires OrdersOf(o, db)
  {
    && KvStores.Fits(db.kv)
    && (forall i | i in db.index.storage.byId :: |EncodeNode(db.index.storage.byId[i])| < U32)
    && (db.index.ann.Some? ==> KvStores.Fits(AnnPairs(db.index.ann.value.vectors)) && Dim(db.index) < U64)
    && |Image(db, o)| < SEEK_LIMIT
  }

  /** A saved server as it comes back: exhausted ids start again from 1, and the access order is
      whatever order the nodes are walked in. */
  ghost function Reloaded(db: Db, hint: seq<Id>): Db {
    var s := db.index.storage;
    Db(db.kv, Index(s.(nextId := if s.nextId == 0 then 1 else s.nextId), OrderOf(s.byId.Keys, hint), db.index.ann))
  }

  lemma RegionsOf(h: Header, kv: Bytes, nodes: Bytes, ann: Bytes, mapped: bool)
    requires h.kv == Toc(HEADER_BYTES, |kv|) && h.nodes == Toc(HEADER_BYTES + |kv|, |nodes|)
    requires HEADER_BYTES + |kv| + |nodes| + |ann| < SEEK_LIMIT
    ensures var img := HeaderBytes(h) + kv + nodes + ann;
            && Region(img, h.kv, mapped) == Some(if mapped then kv else kv + nodes + ann)
            && Region(img, h.nodes, mapped) == Some(if mapped then nodes else nodes + ann)
            && Region(img, Toc(HEADER_BYTES + |kv| + |nodes|, |ann|), false) == Some(ann)
  {
    hide HeaderBytes;
    var head := HeaderBytes(h);
    var img := head + kv + nodes + ann;
    assert img == head + (kv + nodes + ann);
    assert img[HEADER_BYTES..] == kv + nodes + ann;
    assert img[HEADER_BYTES..HEADER_BYTES + |kv|] == kv;
    assert img[HEADER_BYTES + |kv|..] == nodes + ann;
    assert img[HEADER_BYTES + |kv|..HEADER_BYTES + |kv| + |nodes|] == nodes;
    assert img[HEADER_BYTES + |kv| + |nodes|..] == ann;
  }

  lemma NodeCount(db: Db, o: Orders)
    requires OrdersOf(o, db) && Coherent(db.index)
    ensures |o.nodes| == |db.index.storage.byId| <= 65535
  {
    forall i | i in o.nodes ensures i != 0 {
      InverseAtId(db.index.storage, i);
    }
    OrderBound(o.nodes);
  }

  /** The header of a server's image. */
  ghost function ImageHeader(db: Db, o: Orders): Header
    requires OrdersOf(o, db)
  {
    HeaderOf(db, |KvStores.Section(db.kv, o.kv)|, |NodeRecords(db.index.storage, o.nodes)|, |AnnBytes(db.index, o.ann)|)
  }

  lemma ImageHeaderFits(db: Db, o: Orders)
    requires OrdersOf(o, db) && ImageFits(db, o) && Coherent(db.index)
    ensures HeaderFits(ImageHeader(db, o))
    ensures HEADER_BYTES + |KvStores.Section(db.kv, o.kv)| + |NodeRecords(db.index.storage, o.nodes)|
            + |AnnBytes(db.index, o.ann)| == |Image(db, o)|
  {
    hide KvStores.Section, NodeRecords, AnnBytes, HeaderBytes, EncodeNode, AnnPairs, Coherent;
    NodeCount(db, o);
  }

  lemma HeaderReadsBack(db: Db, o: Orders)
    requires OrdersOf(o, db) && ImageFits(db, o) && Coherent(db.index)
    ensures ReadHeader(Image(db, o)) == Some(ImageHeader(db, o))
    ensures ParseHeader(Image(db, o)) == Some(ImageHeader(db, o))
  {
    hide OrdersOf, ImageFits, Image, ImageHeader, Coherent, KvStores.Section, NodeRecords, AnnBytes, HeaderBytes, ReadHeader;
    ImageHeaderFits(db, o);
    ImageIs(db, o);
    var h := ImageHeader(db, o);
    var img := Image(db, o);
    assert img == HeaderBytes(h) + img[HEADER_BYTES..];
    assert h.version == VERSION && InBounds(h.kv, |img|) && InBounds(h.nodes, |img|) && InBounds(h.ann, |img|);
    HeaderRoundTrip(h, img[HEADER_BYTES..]);
  }

  /** The image is its header and three sections, placed where the header says. */
  lemma ImageIs(db: Db, o: Orders)
    requires OrdersOf(o, db)
    ensures var h, kv := ImageHeader(db, o), KvStores.Section(db.kv, o.kv);
            var nodes, ann := NodeRecords(db.index.storage, o.nodes), AnnBytes(db.index, o.ann);
            && Image(db, o) == HeaderBytes(h) + kv + nodes + ann
            && h.version == VERSION
            && h.kv == Toc(HEADER_BYTES, |kv|) && h.nodes == Toc(HEADER_BYTES + |kv|, |nodes|)
            && h.ann == (if db.index.ann.None? then Toc(0, 0) else Toc(HEADER_BYTES + |kv| + |nodes|, |ann|))
            && (db.index.ann.None? ==> ann == [])
  {}

  /** Saving and loading, by either loader and over any earlier contents, restores everything
      but the access order; only the exhausted-ids marker is not preserved. */
  lemma SaveLoad(db: Db, o: Orders, mapped: bool, before: Db, hint: seq<Id>)
    requires OrdersOf(o, db) && ImageFits(db, o) && Coherent(db.index)
    ensures LoadImage(Image(db, o), mapped, before, hint) == Loads(true, Reloaded(db, hint))
  {
    hide LoadImage, LoadIndexPart, Image, HeaderBytes, ParseHeader, ReadHeader, NodeRecords, AnnBytes, Coherent, KvStores.Section,
      KvStores.LoadSection, Reloaded;
    HeaderReadsBack(db, o);
    ImageHeaderFits(db, o);
    ImageIs(db, o);
    IndexPartLoads(db, o, mapped, before, hint);
    KvStores.SectionRoundTrip(db.kv, o.kv, map[]);
    KvPartLoads(ImageHeader(db, o), KvStores.Section(db.kv, o.kv), NodeRecords(db.index.storage, o.nodes),
                AnnBytes(db.index, o.ann), db.kv, mapped, before, hint);
  }

  lemma KvPartLoads(h: Header, kv: Bytes, nodes: Bytes, ann: Bytes, pairs: Pairs, mapped: bool, before: Db, hint: seq<Id>)
    requires h.kv == Toc(HEADER_BYTES, |kv|) && h.nodes == Toc(HEADER_BYTES + |kv|, |nodes|)
    requires HEADER_BYTES + |kv| + |nodes| + |ann| < SEEK_LIMIT
    requires KvStores.LoadSection(kv, map[]) == KvStores.Loaded(true, pairs, |kv|) && |pairs| == h.kvCount
    requires var img := HeaderBytes(h) + kv + nodes + ann; ReadHeader(img) == Some(h) && ParseHeader(img) == Some(h)
    ensures var img := HeaderBytes(h) + kv + nodes + ann;
            LoadImage(img, mapped, before, hint) == LoadIndexPart(img, mapped, h, pairs, before, hint)
  {
    hide KvStores.LoadSection, HeaderBytes, ReadHeader, ParseHeader, Region, LoadIndexPart;
    RegionsOf(h, kv, nodes, ann, mapped);
    KvStores.LoadSectionStable(kv, nodes + ann, map[]);
    assert kv + (nodes + ann) == kv + nodes + ann;
  }

  lemma IndexPartLoads(db: Db, o: Orders, mapped: bool, before: Db, hint: seq<Id>)
    requires OrdersOf(o, db) && ImageFits(db, o) && Coherent(db.index)
    ensures LoadIndexPart(Image(db, o), mapped, ImageHeader(db, o), db.kv, before, hint) == Loads(true, Reloaded(db, hint))
  {
    hide KvStores.Section, NodeRecords, LoadNodeRecords, LoadAnn, HeaderBytes, EncodeNode, AnnPairs, AnnSection, LoadIndexPart;
    var s := db.index.storage;
    var nodes, ann := NodeRecords(s, o.nodes), AnnBytes(db.index, o.ann);
    NodeCount(db, o);
    ImageHeaderFits(db, o);
    ImageIs(db, o);
    NodeSectionRoundTrip(s, o.nodes, if mapped then [] else ann);
    assert nodes + [] == nodes;
    if db.index.ann.Some? {
      AnnRoundTrip(db.index.ann.value, o.ann);
      AnnSectionSize(db.index.ann.value, o.ann);
    }
    SectionsLoad(ImageHeader(db, o), KvStores.Section(db.kv, o.kv), nodes, ann, db, mapped, before, hint);
  }

  lemma AnnSectionSize(a: Ann, order: seq<Bytes>)
    requires forall k | k in order :: k in AnnPairs(a.vectors)
    ensures |AnnSection(a, order)| >= 8
  {}

  lemma SectionsLoad(h: Header, kv: Bytes, nodes: Bytes, ann: Bytes, db: Db, mapped: bool, before: Db, hint: seq<Id>)
    requires h.kv == Toc(HEADER_BYTES, |kv|) && h.nodes == Toc(HEADER_BYTES + |kv|, |nodes|)
    requires HEADER_BYTES + |kv| + |nodes| + |ann| < SEEK_LIMIT
    requires h.dim == Dim(db.index) && h.nextId == db.index.storage.nextId && h.nodeCount == |db.index.storage.byId|
    requires LoadNodeRecords(if mapped then nodes else nodes + ann, 0, h.nodeCount, EMPTY)
          == NodesLoaded(true, db.index.storage.(nextId := 1), |nodes|)
    requires db.index.ann.Some? ==>
               && h.dim > 0 && |ann| > 0 && h.ann == Toc(HEADER_BYTES + |kv| + |nodes|, |ann|)
               && LoadAnn(ann, h.dim) == db.index.ann
    ensures LoadIndexPart(HeaderBytes(h) + kv + nodes + ann, mapped, h, db.kv, before, hint) == Loads(true, Reloaded(db, hint))
  {
    hide LoadNodeRecords, LoadAnn, HeaderBytes, Region, OrderOf;
    RegionsOf(h, kv, nodes, ann, mapped);
  }

  /** Reloading keeps the index coherent exactly when ids were not exhausted or no node is left:
      otherwise the next new key is given an id that may still be in use. */
  lemma ReloadCoherent(db: Db, hint: seq<Id>)
    requires Coherent(db.index)
    ensures Coherent(Reloaded(db, hint).index) <==> db.index.storage.nextId != 0 || db.index.storage.byId == map[]
  {
    var s := db.index.storage;
    var t := Reloaded(db, hint).index;
    assert Inverse(t.storage);
    if s.nextId == 0 && s.byId != map[] {
      var i :| i in s.byId;
      assert !(i < t.storage.nextId);
    }
  }

  lemma ReloadShows(db: Db, hint: seq<Id>)
    ensures ViewOf(Reloaded(db, hint)) == ViewOf(db)
  {
    var x, y := db.index, Reloaded(db, hint).index;
    forall k | k in x.storage.byKey ensures EntryOf(y, k) == EntryOf(x, k) {}
    assert CacheOf(y) == CacheOf(x);
  }

  /** Whatever the mapped loader accepts, the buffered loader accepts with the same result,
      except for an empty node section whose offset cannot be seeked to. */
  lemma LoadersAgree(img: Bytes, a: Db, b: Db, hint: seq<Id>)
    requires |img| < SEEK_LIMIT
    requires LoadImage(img, true, a, hint).ok
    ensures var h := ParseHeader(img).value;
            if h.nodes.length > 0 || h.nodes.offset < SEEK_LIMIT
            then LoadImage(img, false, b, hint) == LoadImage(img, true, a, hint)
            else !LoadImage(img, false, b, hint).ok
  {
    hide KvStores.LoadSection, LoadNodeRecords, LoadAnn, OrderOf, ReadHeader;
    var h := ParseHeader(img).value;
    var d := Region(img, h.kv, true).value;
    NoEmptySection();
    assert h.kv.length > 0;
    assert img[h.kv.offset..] == d + img[h.kv.offset + h.kv.length..];
    KvStores.LoadSectionStable(d, img[h.kv.offset + h.kv.length..], map[]);
    var n := Region(img, h.nodes, true).value;
    if h.nodes.length > 0 {
      assert img[h.nodes.offset..] == n + img[h.nodes.offset + h.nodes.length..];
      LoadNodeRecordsStable(n, img[h.nodes.offset + h.nodes.length..], 0, h.nodeCount, EMPTY);
    } else if h.nodes.offset < SEEK_LIMIT {
      var r := Region(img, h.nodes, false).value;
      assert n + r == r;
      LoadNodeRecordsStable(n, r, 0, h.nodeCount, EMPTY);
    }
  }

  /** Whether a load succeeds does not depend on what was there before. */
  lemma OkWithout(img: Bytes, mapped: bool, a: Db, b: Db, hint: seq<Id>)
    ensures LoadImage(img, mapped, a, hint).ok <==> LoadImage(img, mapped, b, hint).ok
    ensures LoadImage(img, mapped, a, hint).ok ==> LoadImage(img, mapped, a, hint) == LoadImage(img, mapped, b, hint)
  {
    hide KvStores.LoadSection, LoadNodeRecords, LoadAnn, OrderOf, ReadHeader, Region;
  }

  /** A file loads exactly if one of the loaders accepts it, and then as that loader loads it. */
  lemma PathAccepts(img: Bytes, before: Db, hint: Walk)
    ensures var m, f := LoadImage(img, true, before, hint.first), LoadImage(img, false, before, hint.second);
            && (LoadPath(img, before, hint).ok <==> m.ok || f.ok)
            && (m.ok ==> LoadPath(img, before, hint) == m) && (!m.ok && f.ok ==> LoadPath(img, before, hint) == f)
  {
    hide LoadImage;
    OkWithout(img, false, before, LoadImage(img, true, before, hint.first).db, hint.second);
  }

  lemma NoEmptySection()
    ensures !KvStores.LoadSection([], map[]).ok
  {}

  /** Whatever the image, an index loaded in full is coherent exactly if the stored next id is above every
      node's id and the restored vectors belong to exactly the loaded nodes. */
  lemma LoadedCoherent(img: Bytes, mapped: bool, before: Db, hint: seq<Id>)
    requires LoadImage(img, mapped, before, hint).ok
    ensures var x := LoadImage(img, mapped, before, hint).db.index;
            && Inverse(x.storage) && x.storage.nextId != 0
            && (Coherent(x) <==>
                  && (forall i | i in x.storage.byId :: i < x.storage.nextId)
                  && (if x.ann.None? then x.storage.byId == map[] else x.ann.value.vectors.Keys == x.storage.byId.Keys))
  {
    hide KvStores.LoadSection, LoadNodeRecords, LoadAnn, Inverse, ReadHeader, ParseHeader, Region, OrderOf, Coherent, KvStores.Enumerates;
    var h := (if mapped then ParseHeader(img) else ReadHeader(img)).value;
    var n := Region(img, h.nodes, mapped).value;
    EmptyInverse();
    LoadedInverse(n, 0, h.nodeCount, EMPTY);
    var x := LoadImage(img, mapped, before, hint).db.index;
    var loaded := LoadNodeRecords(n, 0, h.nodeCount, EMPTY).storage;
    assert x.storage == loaded.(nextId := x.storage.nextId);
    NextIdApart(loaded, x.storage);
    LoadedAnnDim(img, h.ann, h.dim);
    WalkedDistinct(x.order, x.storage.byId.Keys);
    CoherentIff(x);
  }

  lemma CoherentIff(x: Index)
    requires Inverse(x.storage) && x.storage.nextId != 0
    requires Distinct(x.order) && (forall i :: i in x.order <==> i in x.storage.byId) && (x.ann.Some? ==> x.ann.value.dim > 0)
    ensures Coherent(x) <==>
              && (forall i | i in x.storage.byId :: i < x.storage.nextId)
              && (if x.ann.None? then x.storage.byId == map[] else x.ann.value.vectors.Keys == x.storage.byId.Keys)
  {
    hide Inverse;
  }

  lemma NextIdApart(s: Storage, t: Storage)
    requires t.byId == s.byId && t.byKey == s.byKey
    ensures Inverse(s) <==> Inverse(t)
  {}

  lemma LoadedAnnDim(img: Bytes, t: Toc, dim: nat)
    ensures Region(img, t, false).Some? && LoadAnn(Region(img, t, false).value, dim).Some?
            ==> LoadAnn(Region(img, t, false).value, dim).value.dim == dim
  {
    hide KvStores.LoadSection;
  }

  lemma WalkedDistinct(order: seq<Id>, ids: set<Id>)
    requires KvStores.Enumerates(order, ids)
    ensures Distinct(order) && forall i :: i in order <==> i in ids
  {}
}
