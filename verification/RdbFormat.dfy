/** Byte layout of the snapshot file: little-endian fields, length-prefixed strings, header. */
module RdbFormat {
  import opened ByteStrings

  // ---- little-endian unsigned fields -----------------------------------------------------------

  /** The w low-order bytes of n, as copying the first w bytes of a wider integer writes them. */
  function Le(n: nat, w: nat): (b: Bytes)
    ensures |b| == w
    decreases w
  {
    if w == 0 then [] else [(n % 256) as byte] + Le(n / 256, w - 1)
  }

  function FromLe(b: Bytes): nat {
    if b == [] then 0 else b[0] as nat + 256 * FromLe(b[1..])
  }

  function Span(w: nat): (s: nat)
    ensures s > 0
  {
    if w == 0 then 1 else 256 * Span(w - 1)
  }

  const U32: nat := 0x1_0000_0000
  const U64: nat := 0x1_0000_0000_0000_0000

  lemma Spans()
    ensures Span(2) == 0x10000 && Span(4) == U32 && Span(8) == U64
  {
    assert Span(1) == 256 && Span(3) == 0x100_0000;
    assert Span(5) == 0x100_0000_0000 && Span(6) == 0x1_0000_0000_0000 && Span(7) == 0x100_0000_0000_0000;
  }

  lemma {:induction false} LeRoundTrip(n: nat, w: nat)
    requires n < Span(w)
    ensures FromLe(Le(n, w)) == n
    decreases w
  {
    if w > 0 {
      assert Le(n, w)[1..] == Le(n / 256, w - 1);
      LeRoundTrip(n / 256, w - 1);
    }
  }

  lemma {:induction false} FromLeBound(b: Bytes)
    ensures FromLe(b) < Span(|b|)
  {
    if b != [] {
      FromLeBound(b[1..]);
    }
  }

  /** A w-byte field at pos, and the position after it. */
  function TakeLe(d: Bytes, pos: nat, w: nat): (r: Option<(nat, nat)>)
    ensures r.Some? ==> r.value.1 == pos + w <= |d|
  {
    if pos + w > |d| then None else Some((FromLe(d[pos..pos + w]), pos + w))
  }

  // ---- length-prefixed strings ------------------------------------------------------------------

  /** Length and contents both use the length modulo 2^32. */
  function Str(s: Bytes): Bytes { Le(|s|, 4) + s[..|s| % U32] }

  function TakeStr(d: Bytes, pos: nat): (r: Option<(Bytes, nat)>)
    ensures r.Some? ==> pos + 4 <= r.value.1 <= |d| && |r.value.0| < U32
  {
    match TakeLe(d, pos, 4)
    case None => None
    case Some((n, p)) =>
      FromLeBound(d[pos..p]);
      Spans();
      if p + n > |d| then None else Some((d[p..p + n], p + n))
  }

  lemma LeAt(pre: Bytes, n: nat, w: nat, post: Bytes)
    requires n < Span(w)
    ensures TakeLe(pre + Le(n, w) + post, |pre|, w) == Some((n, |pre| + w))
  {
    LeRoundTrip(n, w);
    assert (pre + Le(n, w) + post)[|pre|..|pre| + w] == Le(n, w);
  }

  lemma StrAt(pre: Bytes, s: Bytes, post: Bytes)
    requires |s| < U32
    ensures |Str(s)| == 4 + |s|
    ensures TakeStr(pre + Str(s) + post, |pre|) == Some((s, |pre| + 4 + |s|))
  {
    Spans();
    var d := pre + Str(s) + post;
    assert s[..|s| % U32] == s;
    assert d == pre + Le(|s|, 4) + (s + post);
    LeAt(pre, |s|, 4, s + post);
    assert d[|pre| + 4..|pre| + 4 + |s|] == s;
  }

  lemma TakeStrStable(d: Bytes, e: Bytes, pos: nat)
    requires TakeStr(d, pos).Some?
    ensures TakeStr(d + e, pos) == TakeStr(d, pos)
  {
    assert (d + e)[pos..pos + 4] == d[pos..pos + 4];
    var n := FromLe(d[pos..pos + 4]);
    assert (d + e)[pos + 4..pos + 4 + n] == d[pos + 4..pos + 4 + n];
  }

  // ---- header -------------------------------------------------------------------------------------

  const MAGIC: Bytes := [86, 69, 77, 79, 82, 89, 68, 66]   // "VEMORYDB"
  const VERSION: nat := 3
  const HEADER_BYTES: nat := 96
  const FLAG_HAS_USEARCH: nat := 1

  datatype Toc = Toc(offset: nat, length: nat)

  datatype Header = Header(version: nat, flags: nat, dim: nat, nextId: nat, pad: nat,
                           kvCount: nat, nodeCount: nat, kv: Toc, nodes: Toc, ann: Toc)

  ghost predicate HeaderFits(h: Header) {
    && h.version < U32 && h.flags < U32 && h.nextId < U32 && h.pad < U32
    && h.dim < U64 && h.kvCount < U64 && h.nodeCount < U64
    && h.kv.offset < U64 && h.kv.length < U64 && h.nodes.offset < U64 && h.nodes.length < U64
    && h.ann.offset < U64 && h.ann.length < U64
  }

  function HeaderBytes(h: Header): (b: Bytes)
    ensures |b| == HEADER_BYTES
  {
    MAGIC + Le(h.version, 4) + Le(h.flags, 4) + Le(h.dim, 8) + Le(h.nextId, 4) + Le(h.pad, 4)
    + Le(h.kvCount, 8) + Le(h.nodeCount, 8)
    + Le(h.kv.offset, 8) + Le(h.kv.length, 8) + Le(h.nodes.offset, 8) + Le(h.nodes.length, 8)
    + Le(h.ann.offset, 8) + Le(h.ann.length, 8)
  }

  function Field(d: Bytes, from: nat, w: nat): nat
    requires from + w <= |d|
  {
    FromLe(d[from..from + w])
  }

  function HeaderFields(d: Bytes): Header
    requires |d| >= HEADER_BYTES
  {
    Header(Field(d, 8, 4), Field(d, 12, 4), Field(d, 16, 8), Field(d, 24, 4), Field(d, 28, 4),
           Field(d, 32, 8), Field(d, 40, 8), Toc(Field(d, 48, 8), Field(d, 56, 8)),
           Toc(Field(d, 64, 8), Field(d, 72, 8)), Toc(Field(d, 80, 8), Field(d, 88, 8)))
  }

  /** Magic and version, as both loaders check them. */
  function ReadHeader(d: Bytes): Option<Header> {
    if |d| < HEADER_BYTES then None
    else if d[..8] != MAGIC || HeaderFields(d).version != VERSION then None
    else Some(HeaderFields(d))
  }

  predicate InBounds(t: Toc, size: nat) {
    t.length == 0 || (t.offset <= size && t.length <= size - t.offset)
  }

  /** The mapped loader's header check, which also bounds the non-empty sections. */
  function ParseHeader(d: Bytes): Option<Header> {
    match ReadHeader(d)
    case None => None
    case Some(h) =>
      if InBounds(h.kv, |d|) && InBounds(h.nodes, |d|) && InBounds(h.ann, |d|) then Some(h) else None
  }

  /** A cursor over the header's bytes: each field is taken where the one before it ended. */
  class HeaderReader {
    const data: Bytes
    var off: nat

    constructor (data: Bytes)
      ensures this.data == data && off == 0
    {
      this.data, off := data, 0;
    }

    method Take(w: nat) returns (v: nat)
      requires off + w <= |data|
      modifies this`off
      ensures v == Field(data, old(off), w) && off == old(off) + w
    {
      v := FromLe(data[off..off + w]);
      off := off + w;
    }

    method TakeToc() returns (t: Toc)
      requires off + 16 <= |data|
      modifies this`off
      ensures t == Toc(Field(data, old(off), 8), Field(data, old(off) + 8, 8)) && off == old(off) + 16
    {
      var offset := Take(8);
      var length := Take(8);
      t := Toc(offset, length);
    }

    method TakeHeader() returns (h: Header)
      requires off == 8 && HEADER_BYTES <= |data|
      modifies this`off
      ensures h == HeaderFields(data) && off == HEADER_BYTES
    {
      hide Field;
      var version := Take(4);
      var flags := Take(4);
      var dim := Take(8);
      var nextId := Take(4);
      var pad := Take(4);
      var kvCount := Take(8);
      var nodeCount := Take(8);
      var kv := TakeToc();
      var nodes := TakeToc();
      var ann := TakeToc();
      h := Header(version, flags, dim, nextId, pad, kvCount, nodeCount, kv, nodes, ann);
    }
  }

  /** The mapped loader's header: fields in order, then magic and version, then every section's bounds. */
  method ParseHeaderBytes(d: Bytes) returns (r: Option<Header>)
    ensures r == ParseHeader(d)
  {
    hide Field, HeaderFields;
    if |d| < HEADER_BYTES {
      return None;
    }
    var reader := new HeaderReader(d);
    reader.off := 8;
    var h := reader.TakeHeader();
    if d[..8] != MAGIC || h.version != VERSION {
      return None;
    }
    var toc := [h.kv, h.nodes, h.ann];
    var i := 0;
    while i < 3
      invariant 0 <= i <= 3 && forall k | 0 <= k < i :: InBounds(toc[k], |d|)
    {
      var e := toc[i];
      if e.length != 0 && (e.offset > |d| || e.length > |d| - e.offset) {
        assert !InBounds(toc[i], |d|);
        return None;
      }
      i := i + 1;
    }
    assert InBounds(toc[0], |d|) && InBounds(toc[1], |d|) && InBounds(toc[2], |d|);
    return Some(h);
  }

  /** The buffered loader's header: no bounds are checked. */
  method ReadHeaderBytes(d: Bytes) returns (r: Option<Header>)
    ensures r == ReadHeader(d)
  {
    hide Field, HeaderFields;
    if |d| < HEADER_BYTES {
      return None;
    }
    var reader := new HeaderReader(d);
    reader.off := 8;
    var h := reader.TakeHeader();
    if d[..8] != MAGIC || h.version != VERSION {
      return None;
    }
    return Some(h);
  }

  lemma FieldAt(d: Bytes, from: nat, n: nat, w: nat)
    requires from + w <= |d| && d[from..from + w] == Le(n, w) && n < Span(w)
    ensures Field(d, from, w) == n
  {
    LeRoundTrip(n, w);
  }

  lemma HeaderRoundTrip(h: Header, body: Bytes)
    requires HeaderFits(h) && h.version == VERSION
    ensures ReadHeader(HeaderBytes(h) + body) == Some(h)
  {
    hide Le, FromLe;
    Spans();
    var d := HeaderBytes(h) + body;
    hide Field;
    assert d[..8] == MAGIC;
    FieldAt(d, 8, h.version, 4);
    FieldAt(d, 12, h.flags, 4);
    FieldAt(d, 16, h.dim, 8);
    FieldAt(d, 24, h.nextId, 4);
    FieldAt(d, 28, h.pad, 4);
    FieldAt(d, 32, h.kvCount, 8);
    FieldAt(d, 40, h.nodeCount, 8);
    FieldAt(d, 48, h.kv.offset, 8);
    FieldAt(d, 56, h.kv.length, 8);
    FieldAt(d, 64, h.nodes.offset, 8);
    FieldAt(d, 72, h.nodes.length, 8);
    FieldAt(d, 80, h.ann.offset, 8);
    FieldAt(d, 88, h.ann.length, 8);
  }
}
