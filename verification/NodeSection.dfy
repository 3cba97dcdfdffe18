/** RespVNodeCodec and the NODES section of a snapshot. */
module NodeSections {
  import opened ByteStrings
  import opened RdbFormat
  import opened VNodeStorages
  import Resp

  // ---- one node ---------------------------------------------------------------------------------

  function NodeTokens(n: Node): seq<Bytes> { [Decimal(n.id), n.userKey, n.question, n.answer] }

  function EncodeNode(n: Node): Bytes { Resp.Array(NodeTokens(n)) }

  function ParseId(t: Bytes): Option<Id> {
    if AllDigits(t) && Value(t) <= 0xffff then Some(Value(t)) else None
  }

  function DecodeNode(d: Bytes): Option<Node> {
    match Resp.Decode(d)
    case Frame(t, consumed) =>
      if consumed != |d| || |t| != 4 || ParseId(t[0]).None? then None
      else Some(Node(ParseId(t[0]).value, t[1], t[2], t[3]))
    case _ => None
  }

  lemma {:induction false} ValueGrows(t: Bytes, i: nat)
    requires AllDigits(t) && i <= |t|
    ensures Value(t[..i]) <= Value(t)
    decreases |t|
  {
    if i < |t| {
      ValueGrows(t[..|t| - 1], i);
      assert t[..|t| - 1][..i] == t[..i];
    } else {
      assert t[..i] == t;
    }
  }

  /** The codec's digit loop, which gives up as soon as the value passes 0xffff. */
  method ReadId(t: Bytes) returns (r: Option<Id>)
    ensures r == ParseId(t)
  {
    var id: nat := 0;
    var i := 0;
    while i < |t|
      invariant 0 <= i <= |t|
      invariant AllDigits(t[..i]) && id == Value(t[..i]) <= 0xffff
    {
      if !IsDigit(t[i]) {
        return None;
      }
      ValueOfSnoc(t[..i], t[i]);
      assert t[..i + 1] == t[..i] + [t[i]];
      id := id * 10 + (t[i] as int - 48);
      i := i + 1;
      if id > 0xffff {
        if AllDigits(t) {
          ValueGrows(t, i);
        }
        return None;
      }
    }
    assert t[..|t|] == t;
    r := Some(id);
  }

  method Encode(n: Node) returns (out: Bytes)
    ensures out == EncodeNode(n)
  {
    hide Resp.Bulk;
    var t := NodeTokens(n);
    out := Resp.AppendArrayHeader([], 4);
    FourBulks(t[0], t[1], t[2], t[3]);
    out := Resp.AppendBulkString(out, Decimal(n.id));
    out := Resp.AppendBulkString(out, n.userKey);
    out := Resp.AppendBulkString(out, n.question);
    out := Resp.AppendBulkString(out, n.answer);
    assert out == Resp.ArrayHeader(4) + (Resp.Bulk(t[0]) + Resp.Bulk(t[1]) + Resp.Bulk(t[2]) + Resp.Bulk(t[3]));
  }

  lemma FourBulks(a: Bytes, b: Bytes, c: Bytes, d: Bytes)
    ensures Resp.Bulks([a, b, c, d]) == Resp.Bulk(a) + Resp.Bulk(b) + Resp.Bulk(c) + Resp.Bulk(d)
  {
    hide Resp.Bulk;
    var none: seq<Bytes> := [];
    Resp.BulksSnoc(none, a);
    assert none + [a] == [a] && Resp.Bulks(none) + Resp.Bulk(a) == Resp.Bulk(a);
    Resp.BulksSnoc([a], b);
    assert [a] + [b] == [a, b];
    Resp.BulksSnoc([a, b], c);
    assert [a, b] + [c] == [a, b, c];
    Resp.BulksSnoc([a, b, c], d);
    assert [a, b, c] + [d] == [a, b, c, d];
  }

  method Decode(d: Bytes) returns (n: Option<Node>)
    ensures n == DecodeNode(d)
  {
    hide Resp.Decode, ParseId;
    var r := Resp.DecodeArrayOfBulk(d);
    if !r.Frame? || r.consumed != |d| || |r.tokens| != 4 {
      return None;
    }
    var id := ReadId(r.tokens[0]);
    if id.None? {
      return None;
    }
    return Some(Node(id.value, r.tokens[1], r.tokens[2], r.tokens[3]));
  }

  lemma NodeRoundTrip(n: Node)
    ensures DecodeNode(EncodeNode(n)) == Some(n)
  {
    Resp.ArrayRoundTrip(NodeTokens(n), []);
    assert EncodeNode(n) + [] == EncodeNode(n);
    ValueOfDecimal(n.id);
  }

  /** Exactly which bytes are a node: one whole array of four strings, the first a numeral up to 65535, and nothing
      behind it. */
  lemma NodeBytes(ts: seq<Bytes>, x: Bytes, n: Node)
    ensures DecodeNode(Resp.Array(ts) + x) == Some(n)
            <==> x == [] && |ts| == 4 && ParseId(ts[0]) == Some(n.id) && ts[1..] == [n.userKey, n.question, n.answer]
  {
    hide Resp.Decode, Resp.Array, ParseId;
    Resp.ArrayRoundTrip(ts, x);
    if |ts| == 4 {
      assert ts[1..] == [ts[1], ts[2], ts[3]];
    }
  }

  /** A node whose encoding needs a length of 4 GiB or more is cut short when it is written, and
      what was written never decodes. */
  lemma OversizeNodeLost(n: Node)
    requires |EncodeNode(n)| >= U32
    ensures DecodeNode(EncodeNode(n)[..|EncodeNode(n)| % U32]) == None
  {
    NodeRoundTrip(n);
    Resp.ProperPrefixNeedsMore(EncodeNode(n), |EncodeNode(n)| % U32);
  }

  // ---- the section ------------------------------------------------------------------------------

  function NodeRecords(s: Storage, order: seq<Id>): Bytes
    requires forall i | i in order :: i in s.byId
  {
    if order == [] then [] else Str(EncodeNode(s.byId[order[0]])) + NodeRecords(s, order[1..])
  }

  datatype NodesLoaded = NodesLoaded(ok: bool, storage: Storage, end: nat)

  function LoadNodeRecords(d: Bytes, pos: nat, count: nat, s: Storage): (r: NodesLoaded)
    requires pos <= |d|
    ensures pos <= r.end <= |d|
    ensures r.storage.nextId == s.nextId
    decreases count
  {
    if count == 0 then NodesLoaded(true, s, pos)
    else
      match TakeStr(d, pos)
      case None => NodesLoaded(false, s, pos)
      case Some((bytes, p)) =>
        var n := DecodeNode(bytes);
        if n.None? || Restore(s, n.value).None? then NodesLoaded(false, s, pos)
        else LoadNodeRecords(d, p, count - 1, Restore(s, n.value).value)
  }

  lemma {:induction false} LoadNodeRecordsStable(d: Bytes, e: Bytes, pos: nat, count: nat, s: Storage)
    requires pos <= |d| && LoadNodeRecords(d, pos, count, s).ok
    ensures LoadNodeRecords(d + e, pos, count, s) == LoadNodeRecords(d, pos, count, s)
    decreases count
  {
    hide TakeStr, DecodeNode, Restore;
    if count > 0 {
      TakeStrStable(d, e, pos);
      var (bytes, p) := TakeStr(d, pos).value;
      LoadNodeRecordsStable(d, e, p, count - 1, Restore(s, DecodeNode(bytes).value).value);
    }
  }

  /** acc with those nodes of s added whose ids are listed. */
  function WithNodes(acc: Storage, s: Storage, ids: set<Id>): Storage {
    Storage(acc.byId + NodesIn(s, ids), acc.byKey + KeysIn(s, ids), acc.nextId)
  }

  function Ids(order: seq<Id>): set<Id> { set i | i in order }

  /** The nodes of s with these ids can be added to acc one by one. */
  ghost predicate Addable(acc: Storage, s: Storage, ids: set<Id>) {
    forall i | i in ids :: i in s.byId && i !in acc.byId && s.byId[i].userKey !in acc.byKey
  }

  ghost predicate NoRepeats(order: seq<Id>) {
    forall i, j | 0 <= i < j < |order| :: order[i] != order[j]
  }

  lemma SplitHead(order: seq<Id>)
    requires order != [] && NoRepeats(order)
    ensures Ids(order) == Ids(order[1..]) + {order[0]} && order[0] !in Ids(order[1..])
    ensures NoRepeats(order[1..])
  {
    assert order == [order[0]] + order[1..];
  }

  function NodesIn(s: Storage, ids: set<Id>): map<Id, Node> {
    map i | i in ids && i in s.byId :: s.byId[i]
  }

  function KeysIn(s: Storage, ids: set<Id>): map<Bytes, Id> {
    map k | k in s.byKey && s.byKey[k] in ids :: s.byKey[k]
  }

  lemma NodesStep(m: map<Id, Node>, s: Storage, id: Id, rest: set<Id>)
    requires id in s.byId && id !in rest
    ensures m[id := s.byId[id]] + NodesIn(s, rest) == m + NodesIn(s, rest + {id})
  {}

  lemma KeysStep(m: map<Bytes, Id>, s: Storage, id: Id, rest: set<Id>)
    requires Inverse(s) && id in s.byId && id !in rest
    ensures m[s.byId[id].userKey := id] + KeysIn(s, rest) == m + KeysIn(s, rest + {id})
  {
    hide Inverse;
    InverseAtId(s, id);
    forall k | k in s.byKey ensures s.byKey[k] == id <==> k == s.byId[id].userKey {
      InverseAt(s, k);
    }
  }

  lemma RestoreStep(acc: Storage, s: Storage, id: Id, rest: set<Id>)
    requires Inverse(s) && id !in rest && Addable(acc, s, rest + {id})
    ensures Restore(acc, s.byId[id]).Some?
    ensures var next := Restore(acc, s.byId[id]).value;
            Addable(next, s, rest) && WithNodes(next, s, rest) == WithNodes(acc, s, rest + {id})
  {
    hide Inverse, NodesIn, KeysIn;
    assert id in rest + {id};
    InverseAtId(s, id);
    var next := Restore(acc, s.byId[id]).value;
    forall i | i in rest ensures i in s.byId && i !in next.byId && s.byId[i].userKey !in next.byKey {
      assert i in rest + {id};
      InverseAtId(s, i);
    }
    NodesStep(acc.byId, s, id, rest);
    KeysStep(acc.byKey, s, id, rest);
  }

  lemma {:induction false} NodeRecordsRoundTrip(pre: Bytes, s: Storage, order: seq<Id>, post: Bytes, acc: Storage)
    requires Inverse(s) && NoRepeats(order) && Addable(acc, s, Ids(order))
    requires forall i | i in order :: i in s.byId && |EncodeNode(s.byId[i])| < U32
    ensures LoadNodeRecords(pre + NodeRecords(s, order) + post, |pre|, |order|, acc)
         == NodesLoaded(true, WithNodes(acc, s, Ids(order)), |pre| + |NodeRecords(s, order)|)
    decreases |order|
  {
    hide TakeStr, DecodeNode, EncodeNode, Str, Inverse, Addable, Restore, WithNodes, NoRepeats, Ids;
    var d := pre + NodeRecords(s, order) + post;
    if order == [] {
      NoNodes(acc, s);
    } else {
      var bytes, tail := EncodeNode(s.byId[order[0]]), NodeRecords(s, order[1..]);
      assert d == pre + Str(bytes) + (tail + post);
      StrAt(pre, bytes, tail + post);
      NodeRoundTrip(s.byId[order[0]]);
      SplitHead(order);
      RestoreStep(acc, s, order[0], Ids(order[1..]));
      assert d == (pre + Str(bytes)) + tail + post;
      NodeRecordsRoundTrip(pre + Str(bytes), s, order[1..], post, Restore(acc, s.byId[order[0]]).value);
    }
  }

  lemma NoNodes(acc: Storage, s: Storage)
    ensures WithNodes(acc, s, Ids([])) == acc
  {
    assert WithNodes(acc, s, Ids([])).byId == acc.byId;
    assert WithNodes(acc, s, Ids([])).byKey == acc.byKey;
  }

  /** A saved storage loads back with all its nodes and both indexes. */
  lemma NodeSectionRoundTrip(s: Storage, order: seq<Id>, post: Bytes)
    requires Inverse(s)
    requires (forall i :: i in order <==> i in s.byId)
    requires NoRepeats(order)
    requires forall i | i in s.byId :: |EncodeNode(s.byId[i])| < U32
    ensures LoadNodeRecords(NodeRecords(s, order) + post, 0, |order|, EMPTY)
         == NodesLoaded(true, s.(nextId := 1), |NodeRecords(s, order)|)
  {
    hide LoadNodeRecords, NodeRecords, EncodeNode, Inverse, WithNodes, NoRepeats;
    NodeRecordsRoundTrip([], s, order, post, EMPTY);
    assert [] + NodeRecords(s, order) + post == NodeRecords(s, order) + post;
    AllNodes(s, Ids(order));
  }

  lemma AllNodes(s: Storage, ids: set<Id>)
    requires Inverse(s) && ids == s.byId.Keys
    ensures WithNodes(EMPTY, s, ids) == s.(nextId := 1)
  {
    hide Inverse;
    assert map[] + NodesIn(s, ids) == s.byId;
    forall k | k in s.byKey ensures s.byKey[k] in ids {
      InverseAt(s, k);
    }
    assert map[] + KeysIn(s, ids) == s.byKey;
  }

  /** Whatever the bytes, the loaded indexes are mutual inverses. */
  lemma {:induction false} LoadedInverse(d: Bytes, pos: nat, count: nat, s: Storage)
    requires pos <= |d| && Inverse(s)
    ensures Inverse(LoadNodeRecords(d, pos, count, s).storage)
    decreases count
  {
    hide TakeStr, DecodeNode, Restore, Inverse;
    if count > 0 && TakeStr(d, pos).Some? {
      var (bytes, p) := TakeStr(d, pos).value;
      if DecodeNode(bytes).Some? && Restore(s, DecodeNode(bytes).value).Some? {
        RestoreKeepsInverse(s, DecodeNode(bytes).value);
        LoadedInverse(d, p, count - 1, Restore(s, DecodeNode(bytes).value).value);
      }
    }
  }

  lemma NoRecords(s: Storage)
    ensures NodeRecords(s, []) == []
  {}

  lemma {:induction false} RecordsSnoc(s: Storage, order: seq<Id>, id: Id)
    requires (forall i | i in order :: i in s.byId) && id in s.byId
    ensures NodeRecords(s, order + [id]) == NodeRecords(s, order) + Str(EncodeNode(s.byId[id]))
    decreases |order|
  {
    hide Str, EncodeNode;
    if order == [] {
      assert NodeRecords(s, [id][1..]) == [];
    } else {
      RecordsSnoc(s, order[1..], id);
      assert (order + [id])[1..] == order[1..] + [id];
    }
  }
}
