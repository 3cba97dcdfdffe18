/** What the loaders refuse: images cut short, and images that are not what their header says. */
module SnapshotErrors {
  import opened ByteStrings
  import opened RdbFormat
  import opened VNodeStorages
  import opened VNodeIndexes
  import opened Databases
  import opened NodeSections
  import opened Snapshots
  import KvStores

  // ---- a truncated image --------------------------------------------------------------------------------------

  /** A map's section cut short does not load. */
  lemma CutSection(m: KvStores.Pairs, order: seq<Bytes>, x: Bytes, n: nat)
    requires KvStores.Fits(m) && KvStores.Enumerates(order, m.Keys) && n <= |KvStores.Section(m, order) + x|
    ensures KvStores.LoadSection((KvStores.Section(m, order) + x)[..n], map[]).ok ==> |KvStores.Section(m, order)| <= n
  {
    hide KvStores.Section, KvStores.LoadSection;
    var s := KvStores.Section(m, order);
    var d := s + x;
    KvStores.SectionRoundTrip(m, order, map[]);
    KvStores.LoadSectionStable(s, x, map[]);
    if KvStores.LoadSection(d[..n], map[]).ok {
      assert d[..n] + d[n..] == d;
      KvStores.LoadSectionStable(d[..n], d[n..], map[]);
    }
  }

  lemma CutNodes(s: Storage, order: seq<Id>, x: Bytes, n: nat)
    requires Inverse(s) && KvStores.Enumerates(order, s.byId.Keys)
    requires forall i | i in s.byId :: |EncodeNode(s.byId[i])| < U32
    requires n <= |NodeRecords(s, order) + x|
    ensures LoadNodeRecords((NodeRecords(s, order) + x)[..n], 0, |s.byId|, EMPTY).ok ==> |NodeRecords(s, order)| <= n
  {
    hide NodeRecords, LoadNodeRecords, EncodeNode, Inverse;
    var d := NodeRecords(s, order) + x;
    NodeSectionRoundTrip(s, order, x);
    if LoadNodeRecords(d[..n], 0, |s.byId|, EMPTY).ok {
      assert d[..n] + d[n..] == d;
      LoadNodeRecordsStable(d[..n], d[n..], 0, |s.byId|, EMPTY);
    }
  }

  lemma CutAnn(a: Ann, order: seq<Bytes>, n: nat)
    requires KvStores.Fits(AnnPairs(a.vectors)) && KvStores.Enumerates(order, AnnPairs(a.vectors).Keys) && n <= |AnnSection(a, order)|
    ensures LoadAnn(AnnSection(a, order)[..n], a.dim).Some? ==> n == |AnnSection(a, order)|
  {
    hide KvStores.Section, KvStores.LoadSection, AnnPairs, Le;
    var p := AnnPairs(a.vectors);
    var d := AnnSection(a, order);
    if n >= 8 {
      CutSection(p, order, [], n - 8);
      assert KvStores.Section(p, order) + [] == KvStores.Section(p, order);
      assert d[..n][8..] == KvStores.Section(p, order)[..n - 8];
    }
  }

  lemma CutHeader(img: Bytes, n: nat)
    requires HEADER_BYTES <= n <= |img|
    ensures ReadHeader(img[..n]) == ReadHeader(img)
  {
    var d := img[..n];
    assert d[..8] == img[..8];
    CutField(img, n, 8, 4);
    CutField(img, n, 12, 4);
    CutField(img, n, 16, 8);
    CutField(img, n, 24, 4);
    CutField(img, n, 28, 4);
    CutField(img, n, 32, 8);
    CutField(img, n, 40, 8);
    CutField(img, n, 48, 8);
    CutField(img, n, 56, 8);
    CutField(img, n, 64, 8);
    CutField(img, n, 72, 8);
    CutField(img, n, 80, 8);
    CutField(img, n, 88, 8);
    hide Field;
  }

  lemma CutField(img: Bytes, n: nat, from: nat, w: nat)
    requires from + w <= n <= |img|
    ensures Field(img[..n], from, w) == Field(img, from, w)
  {
    assert img[..n][from..from + w] == img[from..from + w];
  }

  /** The part of a section's region that is still there. */
  lemma CutRegion(img: Bytes, n: nat, t: Toc, rest: Bytes)
    requires n <= |img| < SEEK_LIMIT && t.offset <= |img| && img[t.offset..] == rest
    ensures Region(img[..n], t, false) == Some(rest[..if n <= t.offset then 0 else n - t.offset])
  {
    if n > t.offset {
      assert img[..n][t.offset..] == rest[..n - t.offset];
    }
  }

  /** The buffered loader finds something missing wherever the file ends. */
  lemma CutRefused(db: Db, o: Orders, n: nat, before: Db, hint: seq<Id>)
    requires OrdersOf(o, db) && ImageFits(db, o) && Coherent(db.index) && n < |Image(db, o)|
    ensures !LoadImage(Image(db, o)[..n], false, before, hint).ok
  {
    hide Image, ReadHeader, KvStores.LoadSection, LoadNodeRecords, LoadAnn, Coherent, Region, ImageFits, ImageHeader, LoadImage;
    var img := Image(db, o);
    if n < HEADER_BYTES {
      NoHeader(img[..n]);
      NoHeaderNoLoad(img[..n], before, hint);
    } else {
      CutHeader(img, n);
      HeaderReadsBack(db, o);
      CutKv(db, o, n);
      CutNodePart(db, o, n);
      if db.index.ann.Some? && ImageHeader(db, o).nodes.offset + ImageHeader(db, o).nodes.length <= n {
        CutAnnPart(db, o, n);
      }
      CutLoad(img[..n], ImageHeader(db, o), before, hint);
    }
  }

  lemma NoHeaderNoLoad(img: Bytes, before: Db, hint: seq<Id>)
    requires ReadHeader(img).None?
    ensures !LoadImage(img, false, before, hint).ok
  {
    hide ReadHeader, LoadIndexPart, Region, KvStores.LoadSection;
  }

  /** Where the sections are, and what follows each. */
  lemma Layout(db: Db, o: Orders)
    requires OrdersOf(o, db) && ImageFits(db, o)
    ensures var img, h := Image(db, o), ImageHeader(db, o);
            var kv, nodes, ann := KvStores.Section(db.kv, o.kv), NodeRecords(db.index.storage, o.nodes), AnnBytes(db.index, o.ann);
            && |img| < SEEK_LIMIT && h.nodeCount == |db.index.storage.byId| && h.dim == Dim(db.index) && h.kv.offset == HEADER_BYTES && h.nodes.offset == HEADER_BYTES + |kv| && h.nodes.length == |nodes|
            && (db.index.ann.Some? ==> h.ann.offset == h.nodes.offset + |nodes| && h.ann.length == |ann|)
            && |img| == h.nodes.offset + |nodes| + |ann|
            && img[h.kv.offset..] == kv + (nodes + ann) && img[h.nodes.offset..] == nodes + ann && img[h.nodes.offset + |nodes|..] == ann
  {
    hide HeaderBytes, KvStores.Section, NodeRecords, AnnSection;
    ImageIs(db, o);
    Offsets(HeaderBytes(ImageHeader(db, o)), KvStores.Section(db.kv, o.kv), NodeRecords(db.index.storage, o.nodes), AnnBytes(db.index, o.ann), Image(db, o));
    if db.index.ann.Some? {
      AnnSectionSize(db.index.ann.value, o.ann);
    }
  }

  lemma CutKv(db: Db, o: Orders, n: nat)
    requires OrdersOf(o, db) && ImageFits(db, o) && HEADER_BYTES <= n < |Image(db, o)|
    ensures var img, h := Image(db, o)[..n], ImageHeader(db, o);
            && Region(img, h.kv, false).Some? && Region(img, h.nodes, false).Some?
            && (KvStores.LoadSection(Region(img, h.kv, false).value, map[]).ok ==> h.nodes.offset <= n)
  {
    hide Image, ImageHeader, KvStores.Section, KvStores.LoadSection, NodeRecords, AnnBytes, Region;
    Layout(db, o);
    var img, h := Image(db, o), ImageHeader(db, o);
    var nodes, ann := NodeRecords(db.index.storage, o.nodes), AnnBytes(db.index, o.ann);
    CutRegion(img, n, h.kv, KvStores.Section(db.kv, o.kv) + (nodes + ann));
    CutRegion(img, n, h.nodes, nodes + ann);
    CutSection(db.kv, o.kv, nodes + ann, n - HEADER_BYTES);
  }

  lemma CutNodePart(db: Db, o: Orders, n: nat)
    requires OrdersOf(o, db) && ImageFits(db, o) && Coherent(db.index) && HEADER_BYTES <= n < |Image(db, o)|
    ensures var img, h := Image(db, o)[..n], ImageHeader(db, o);
            h.nodes.offset <= n && Region(img, h.nodes, false).Some?
            && LoadNodeRecords(Region(img, h.nodes, false).value, 0, h.nodeCount, EMPTY).ok ==>
              h.nodes.offset + h.nodes.length <= n && db.index.ann.Some?
  {
    hide Image, ImageHeader, KvStores.Section, NodeRecords, LoadNodeRecords, AnnSection, Region;
    Layout(db, o);
    var img, h := Image(db, o), ImageHeader(db, o);
    var nodes, ann := NodeRecords(db.index.storage, o.nodes), AnnBytes(db.index, o.ann);
    CutRegion(img, n, h.nodes, nodes + ann);
    if h.nodes.offset <= n {
      CutNodes(db.index.storage, o.nodes, ann, n - h.nodes.offset);
    }
  }

  lemma CutAnnPart(db: Db, o: Orders, n: nat)
    requires OrdersOf(o, db) && ImageFits(db, o) && Coherent(db.index) && HEADER_BYTES <= n < |Image(db, o)|
    requires var h := ImageHeader(db, o); db.index.ann.Some? && h.nodes.offset + h.nodes.length <= n
    ensures var img, h := Image(db, o)[..n], ImageHeader(db, o);
            && h.dim > 0 && h.ann.length > 0
            && Region(img, h.ann, false).Some? && LoadAnn(Region(img, h.ann, false).value, h.dim).None?
  {
    hide Image, ImageHeader, ImageFits, OrdersOf, Coherent, KvStores.Section, NodeRecords, AnnSection, AnnPairs, Region, LoadAnn,
      KvStores.Enumerates, KvStores.Fits, KvStores.Short;
    Layout(db, o);
    AnnFacts(db, o);
    var img, h := Image(db, o), ImageHeader(db, o);
    CutRegion(img, n, h.ann, AnnBytes(db.index, o.ann));
    CutAnn(db.index.ann.value, o.ann, n - h.ann.offset);
  }

  lemma AnnFacts(db: Db, o: Orders)
    requires OrdersOf(o, db) && ImageFits(db, o) && Coherent(db.index) && db.index.ann.Some?
    ensures var a := db.index.ann.value;
            && (forall k | k in o.ann :: k in AnnPairs(a.vectors)) && KvStores.Fits(AnnPairs(a.vectors)) && KvStores.Enumerates(o.ann, AnnPairs(a.vectors).Keys)
            && AnnBytes(db.index, o.ann) == AnnSection(a, o.ann) && |AnnSection(a, o.ann)| > 0 && Dim(db.index) == a.dim > 0
  {
    hide Image, AnnSection, AnnPairs, KvStores.Fits;
    AnnSectionSize(db.index.ann.value, o.ann);
  }

  lemma Offsets(head: Bytes, kv: Bytes, nodes: Bytes, ann: Bytes, img: Bytes)
    requires img == head + kv + nodes + ann && |head| == HEADER_BYTES
    ensures img[HEADER_BYTES..] == kv + (nodes + ann) && img[HEADER_BYTES + |kv|..] == nodes + ann
    ensures img[HEADER_BYTES + |kv| + |nodes|..] == ann && |img| == HEADER_BYTES + |kv| + |nodes| + |ann|
  {}

  /** A loader that gets no further than this fails. */
  lemma CutLoad(img: Bytes, h: Header, before: Db, hint: seq<Id>)
    requires ReadHeader(img) == Some(h) && Region(img, h.kv, false).Some? && Region(img, h.nodes, false).Some?
    requires KvStores.LoadSection(Region(img, h.kv, false).value, map[]).ok
             && LoadNodeRecords(Region(img, h.nodes, false).value, 0, h.nodeCount, EMPTY).ok
             ==> h.dim > 0 && h.ann.length > 0 && Region(img, h.ann, false).Some? && LoadAnn(Region(img, h.ann, false).value, h.dim).None?
    ensures !LoadImage(img, false, before, hint).ok
  {
    hide ReadHeader, Region, KvStores.LoadSection, LoadNodeRecords, LoadAnn;
  }

  /** A saved image cut anywhere is refused, by either loader and so by a restart, over whatever was there. */
  lemma TruncatedRefused(db: Db, o: Orders, n: nat, before: Db, hint: Walk)
    requires OrdersOf(o, db) && ImageFits(db, o) && Coherent(db.index) && n < |Image(db, o)|
    ensures !LoadPath(Image(db, o)[..n], before, hint).ok
  {
    hide Image, LoadImage, ReadHeader, Coherent;
    var img := Image(db, o)[..n];
    CutRefused(db, o, n, before, hint.first);
    var m := LoadImage(img, true, before, hint.first);
    if m.ok {
      LoadersAgree(img, before, before, hint.first);
      MappedHeader(db, o, n, before, hint.first);
    } else {
      CutRefused(db, o, n, m.db, hint.second);
    }
  }

  lemma MappedHeader(db: Db, o: Orders, n: nat, before: Db, hint: seq<Id>)
    requires OrdersOf(o, db) && ImageFits(db, o) && Coherent(db.index) && n < |Image(db, o)|
    requires LoadImage(Image(db, o)[..n], true, before, hint).ok
    ensures ParseHeader(Image(db, o)[..n]).Some? && ParseHeader(Image(db, o)[..n]).value.nodes.offset < SEEK_LIMIT
  {
    hide Image, ReadHeader, LoadIndexPart, Region, KvStores.LoadSection, Coherent, HeaderBytes, KvStores.Section, NodeRecords, AnnBytes, AnnPairs, EncodeNode;
    HeaderReadsBack(db, o);
    ImageHeaderFits(db, o);
    ImageIs(db, o);
    if n >= HEADER_BYTES {
      CutHeader(Image(db, o), n);
    } else {
      NoHeader(Image(db, o)[..n]);
    }
  }

  lemma NoHeader(img: Bytes)
    requires |img| < HEADER_BYTES
    ensures ReadHeader(img).None?
  {}

  // ---- an image that is not what it says -------------------------------------------------------------------------

  /** Without the magic and version of this format nothing is loaded and nothing is lost. */
  lemma OtherFormatRefused(img: Bytes, before: Db, hint: Walk)
    requires |img| < HEADER_BYTES || img[..8] != MAGIC || Field(img, 8, 4) != VERSION
    ensures LoadPath(img, before, hint) == Loads(false, before)
  {}

  /** A section of an image of this size, if it has any bytes. */
  predicate Inside(t: Toc, size: nat) { t.length > 0 ==> t.offset + t.length <= size }

  /** What is loaded is what the header announced: so many pairs and nodes, vectors of that dimension or none, and the
      next id, where 0 counts as 1; the mapped loader has used up both sections. */
  lemma AsAnnounced(img: Bytes, mapped: bool, before: Db, hint: seq<Id>)
    requires LoadImage(img, mapped, before, hint).ok
    ensures |img| >= HEADER_BYTES && img[..8] == MAGIC && Field(img, 8, 4) == VERSION
    ensures var db := LoadImage(img, mapped, before, hint).db;
            && |db.kv| == Field(img, 32, 8) && |db.index.storage.byId| == Field(img, 40, 8)
            && Dim(db.index) == Field(img, 16, 8) && (db.index.ann.None? <==> Field(img, 16, 8) == 0)
            && db.index.storage.nextId == (if Field(img, 24, 4) % 0x10000 == 0 then 1 else Field(img, 24, 4) % 0x10000)
            && (mapped ==>
                  var kv, nodes := Toc(Field(img, 48, 8), Field(img, 56, 8)), Toc(Field(img, 64, 8), Field(img, 72, 8));
                  && Inside(kv, |img|) && Inside(nodes, |img|) && Inside(Toc(Field(img, 80, 8), Field(img, 88, 8)), |img|)
                  && Region(img, kv, true).Some? && Region(img, nodes, true).Some?
                  && KvStores.LoadSection(Region(img, kv, true).value, map[]).end == |Region(img, kv, true).value|
                  && LoadNodeRecords(Region(img, nodes, true).value, 0, |db.index.storage.byId|, EMPTY).end == |Region(img, nodes, true).value|)
  {
    hide KvStores.LoadSection, LoadNodeRecords, Field, OrderOf, Region;
  }
}
