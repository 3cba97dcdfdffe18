/** KvStore: the string map, and its section of a snapshot. */
module KvStores {
  import opened ByteStrings
  import opened RdbFormat

  type Pairs = map<Bytes, Bytes>

  /** One enumeration of a finite set, each element once: what iterating a hash map gives. */
  ghost predicate Enumerates<T(!new)>(order: seq<T>, s: set<T>) {
    && |order| == |s|
    && (forall i, j | 0 <= i < j < |order| :: order[i] != order[j])
    && (forall x :: x in s <==> x in order)
  }

  function Records(m: Pairs, order: seq<Bytes>): Bytes
    requires forall k | k in order :: k in m
  {
    if order == [] then [] else Str(order[0]) + Str(m[order[0]]) + Records(m, order[1..])
  }

  function Section(m: Pairs, order: seq<Bytes>): Bytes
    requires forall k | k in order :: k in m
  {
    Le(|m|, 8) + Records(m, order)
  }

  /** What a load leaves behind: on failure, the pairs read before it. */
  datatype Loaded = Loaded(ok: bool, pairs: Pairs, end: nat)

  /** One key with its value at pos, and the position after them. */
  function TakeRecord(d: Bytes, pos: nat): (r: Option<(Bytes, Bytes, nat)>)
    ensures r.Some? ==> pos < r.value.2 <= |d| && |r.value.0| < U32 && |r.value.1| < U32
  {
    match TakeStr(d, pos)
    case None => None
    case Some((key, p)) =>
      match TakeStr(d, p)
      case None => None
      case Some((value, q)) => Some((key, value, q))
  }

  function LoadRecords(d: Bytes, pos: nat, count: nat, m: Pairs): (r: Loaded)
    requires pos <= |d|
    ensures pos <= r.end <= |d|
    decreases count
  {
    if count == 0 then Loaded(true, m, pos)
    else
      match TakeRecord(d, pos)
      case None => Loaded(false, m, pos)
      case Some((key, value, q)) =>
        if key == [] then Loaded(false, m, pos)
        else LoadRecords(d, q, count - 1, Emplace(m, key, value))
  }

  /** unordered_map::emplace: an existing key keeps its value. */
  function Emplace(m: Pairs, key: Bytes, value: Bytes): Pairs {
    if key in m then m else m[key := value]
  }

  function LoadSection(d: Bytes, before: Pairs): (r: Loaded)
    ensures r.end <= |d|
  {
    match TakeLe(d, 0, 8)
    case None => Loaded(false, before, 0)
    case Some((count, pos)) => LoadRecords(d, pos, count, map[])
  }

  /** Of two records with the same key the first counts. */
  lemma {:induction false} FirstWins(d: Bytes, pos: nat, count: nat, m: Pairs, key: Bytes)
    requires pos <= |d| && key in m
    ensures key in LoadRecords(d, pos, count, m).pairs && LoadRecords(d, pos, count, m).pairs[key] == m[key]
    decreases count
  {
    hide TakeRecord;
    if count > 0 && TakeRecord(d, pos).Some? {
      var (k, value, q) := TakeRecord(d, pos).value;
      if k != [] {
        FirstWins(d, q, count - 1, Emplace(m, k, value), key);
      }
    }
  }

  lemma TakeRecordStable(d: Bytes, e: Bytes, pos: nat)
    requires TakeRecord(d, pos).Some?
    ensures TakeRecord(d + e, pos) == TakeRecord(d, pos)
  {
    TakeStrStable(d, e, pos);
    TakeStrStable(d, e, TakeStr(d, pos).value.1);
  }

  lemma {:induction false} LoadRecordsStable(d: Bytes, e: Bytes, pos: nat, count: nat, m: Pairs)
    requires pos <= |d| && LoadRecords(d, pos, count, m).ok
    ensures LoadRecords(d + e, pos, count, m) == LoadRecords(d, pos, count, m)
    decreases count
  {
    hide TakeRecord;
    if count > 0 {
      TakeRecordStable(d, e, pos);
      var (key, value, q) := TakeRecord(d, pos).value;
      LoadRecordsStable(d, e, q, count - 1, Emplace(m, key, value));
    }
  }

  lemma LoadSectionStable(d: Bytes, e: Bytes, before: Pairs)
    requires LoadSection(d, before).ok
    ensures LoadSection(d + e, before) == LoadSection(d, before)
  {
    hide LoadRecords;
    assert (d + e)[0..8] == d[0..8];
    var (count, pos) := TakeLe(d, 0, 8).value;
    LoadRecordsStable(d, e, pos, count, map[]);
  }

  /** Lengths a u32 can hold. */
  ghost predicate Fits(m: Pairs) { |m| < U64 && Short(m) }

  ghost predicate Short(m: Pairs) { forall k | k in m :: k != [] && |k| < U32 && |m[k]| < U32 }

  lemma RecordAt(pre: Bytes, key: Bytes, value: Bytes, post: Bytes)
    requires |key| < U32 && |value| < U32
    ensures var record := Str(key) + Str(value);
            TakeRecord(pre + record + post, |pre|) == Some((key, value, |pre| + |record|))
  {
    hide TakeStr, Str;
    var d := pre + (Str(key) + Str(value)) + post;
    assert d == pre + Str(key) + (Str(value) + post);
    StrAt(pre, key, Str(value) + post);
    assert d == (pre + Str(key)) + Str(value) + post;
    StrAt(pre + Str(key), value, post);
  }

  function Pick(m: Pairs, order: seq<Bytes>): Pairs
    requires forall k | k in order :: k in m
  {
    map k | k in order :: m[k]
  }

  ghost predicate Distinct(order: seq<Bytes>) {
    forall i, j | 0 <= i < j < |order| :: order[i] != order[j]
  }

  lemma PickNone(m: Pairs, acc: Pairs)
    ensures acc + Pick(m, []) == acc
  {}

  lemma PickAll(m: Pairs, order: seq<Bytes>)
    requires Enumerates(order, m.Keys)
    ensures Distinct(order) && map[] + Pick(m, order) == m
  {}

  lemma PickCons(m: Pairs, order: seq<Bytes>, acc: Pairs)
    requires order != [] && (forall k | k in order :: k in m) && Distinct(order)
    ensures acc[order[0] := m[order[0]]] + Pick(m, order[1..]) == acc + Pick(m, order)
  {}

  lemma {:induction false} RecordsRoundTrip(pre: Bytes, m: Pairs, order: seq<Bytes>, post: Bytes, acc: Pairs)
    requires Fits(m) && (forall k | k in order :: k in m)
    requires Distinct(order)
    requires forall k | k in order :: k !in acc
    ensures LoadRecords(pre + Records(m, order) + post, |pre|, |order|, acc)
         == Loaded(true, acc + Pick(m, order), |pre| + |Records(m, order)|)
    decreases |order|
  {
    hide TakeRecord, Str, Pick;
    var d := pre + Records(m, order) + post;
    if order == [] {
      PickNone(m, acc);
    } else {
      var key, value, tail := order[0], m[order[0]], Records(m, order[1..]);
      var record := Str(key) + Str(value);
      assert d == pre + record + (tail + post);
      RecordAt(pre, key, value, tail + post);
      assert d == (pre + record) + tail + post;
      RecordsRoundTrip(pre + record, m, order[1..], post, acc[key := value]);
      PickCons(m, order, acc);
    }
  }

  /** A saved map loads back as itself, whatever order it was written in. */
  lemma SectionRoundTrip(m: Pairs, order: seq<Bytes>, before: Pairs)
    requires Fits(m) && Enumerates(order, m.Keys)
    ensures LoadSection(Section(m, order), before) == Loaded(true, m, |Section(m, order)|)
  {
    hide LoadRecords, Records, Le, FromLe, Pick;
    Spans();
    var d := Section(m, order);
    assert d == [] + Le(|m|, 8) + Records(m, order);
    LeAt([], |m|, 8, Records(m, order));
    assert d == Le(|m|, 8) + Records(m, order) + [];
    PickAll(m, order);
    RecordsRoundTrip(Le(|m|, 8), m, order, [], map[]);
  }

  /** Loaded strings are always shorter than 4 GiB, and loaded keys never empty. */
  lemma {:induction false} LoadedFits(d: Bytes, pos: nat, count: nat, m: Pairs)
    requires pos <= |d| && Short(m)
    ensures var r := LoadRecords(d, pos, count, m).pairs; |r| <= |m| + count && Short(r)
    decreases count
  {
    hide TakeRecord, Short, Emplace;
    if count > 0 && TakeRecord(d, pos).Some? {
      var (key, value, q) := TakeRecord(d, pos).value;
      if key != [] {
        var n := Emplace(m, key, value);
        EmplaceShort(m, key, value);
        LoadedFits(d, q, count - 1, n);
        assert LoadRecords(d, pos, count, m) == LoadRecords(d, q, count - 1, n);
      } else {
        assert LoadRecords(d, pos, count, m).pairs == m;
      }
    }
  }

  lemma EmplaceShort(m: Pairs, key: Bytes, value: Bytes)
    requires Short(m) && key != [] && |key| < U32 && |value| < U32
    ensures |Emplace(m, key, value)| <= |m| + 1 && Short(Emplace(m, key, value))
  {
    assert Emplace(m, key, value).Keys == m.Keys + {key};
  }

  /** Exactly which maps survive being saved: those without a key or value of 4 GiB or more. The
      lengths of longer ones are written modulo 4 GiB; no bytes at all load back as such a map. */
  lemma LoadsBack(m: Pairs, order: seq<Bytes>, before: Pairs, d: Bytes)
    requires Enumerates(order, m.Keys)
    ensures LoadSection(Section(m, order), before) == Loaded(true, m, |Section(m, order)|) <==> Fits(m)
    ensures LoadSection(d, before).ok ==> Fits(LoadSection(d, before).pairs)
  {
    if Fits(m) {
      SectionRoundTrip(m, order, before);
    }
    OnlyFitting(Section(m, order), before);
    OnlyFitting(d, before);
  }

  lemma OnlyFitting(d: Bytes, before: Pairs)
    ensures LoadSection(d, before).ok ==> Fits(LoadSection(d, before).pairs)
  {
    hide LoadRecords, FromLe;
    if TakeLe(d, 0, 8).Some? {
      var (count, pos) := TakeLe(d, 0, 8).value;
      Spans();
      FromLeBound(d[0..8]);
      LoadedFits(d, pos, count, map[]);
    }
  }

  class KvStore {
    var pairs: Pairs

    constructor ()
      ensures pairs == map[]
    {
      pairs := map[];
    }

    method Set(key: Bytes, value: Bytes) returns (ok: bool)
      modifies this
      ensures ok == (key != [])
      ensures pairs == if ok then old(pairs)[key := value] else old(pairs)
    {
      if key == [] {
        return false;
      }
      pairs := pairs[key := value];
      return true;
    }

    method Get(key: Bytes) returns (r: Option<Bytes>)
      ensures r == if key != [] && key in pairs then Some(pairs[key]) else None
    {
      r := if key != [] && key in pairs then Some(pairs[key]) else None;
    }

    /** `found` is false for a missing key, `ok` is false for an empty one. */
    method Del(key: Bytes) returns (ok: bool, found: bool)
      modifies this
      ensures ok == (key != []) && found == (ok && key in old(pairs))
      ensures pairs == if found then old(pairs) - {key} else old(pairs)
    {
      if key == [] {
        return false, false;
      }
      found := key in pairs;
      pairs := pairs - {key};
      ok := true;
      assert !found ==> pairs == old(pairs);
    }

    method Clear()
      modifies this
      ensures pairs == map[]
    {
      pairs := map[];
    }

    /** Writes the pairs in some enumeration order. */
    method Dump() returns (out: Bytes, ghost order: seq<Bytes>)
      ensures Enumerates(order, pairs.Keys) && out == Section(pairs, order)
    {
      hide Str, Le, Records, Enumerates;
      out := Le(|pairs|, 8);
      order := [];
      var todo := pairs.Keys;
      NothingWalked(pairs.Keys - todo);
      assert out == Section(pairs, []) by { NoRecords(pairs); }
      while todo != {}
        invariant todo <= pairs.Keys && forall k | k in order :: k in pairs
        invariant Enumerates(order, pairs.Keys - todo)
        invariant out == Section(pairs, order)
        decreases todo
      {
        var key :| key in todo;
        RecordsSnoc(pairs, order, key);
        out := out + (Str(key) + Str(pairs[key]));
        EnumeratesSnoc(order, pairs.Keys - todo, key);
        assert pairs.Keys - (todo - {key}) == (pairs.Keys - todo) + {key};
        order := order + [key];
        todo := todo - {key};
      }
      assert pairs.Keys - {} == pairs.Keys;
    }

    /** The record loop shared by both loaders; `d` starts at the section. */
    method LoadLoop(d: Bytes, start: nat, count: nat) returns (ok: bool, end: nat)
      requires start <= |d|
      modifies this
      ensures Loaded(ok, pairs, end) == LoadRecords(d, start, count, map[])
    {
      hide TakeRecord;
      pairs := map[];
      var pos: nat := start;
      var i := 0;
      while i < count
        invariant 0 <= i <= count && pos <= |d|
        invariant LoadRecords(d, pos, count - i, pairs) == LoadRecords(d, start, count, map[])
      {
        var record := TakeRecord(d, pos);
        if record.None? || record.value.0 == [] {
          return false, pos;
        }
        pairs := Emplace(pairs, record.value.0, record.value.1);
        pos := record.value.2;
        i := i + 1;
      }
      return true, pos;
    }

    /** Buffered-file loader: reads on from the section's offset, wherever the file ends. */
    method Load(d: Bytes) returns (ok: bool)
      modifies this
      ensures ok == LoadSection(d, old(pairs)).ok && pairs == LoadSection(d, old(pairs)).pairs
    {
      var count := TakeLe(d, 0, 8);
      if count.None? {
        return false;
      }
      var end;
      ok, end := LoadLoop(d, count.value.1, count.value.0);
    }

    /** Mapped loader: the section must also be used up exactly. */
    method LoadFrom(d: Bytes) returns (ok: bool)
      modifies this
      ensures var r := LoadSection(d, old(pairs));
              ok == (r.ok && r.end == |d|) && pairs == r.pairs
    {
      var count := TakeLe(d, 0, 8);
      if count.None? {
        return false;
      }
      var end;
      ok, end := LoadLoop(d, count.value.1, count.value.0);
      ok := ok && end == |d|;
    }
  }

  lemma NothingWalked(walked: set<Bytes>)
    ensures walked == {} ==> Enumerates([], walked)
  {}

  lemma NoRecords(m: Pairs)
    ensures Section(m, []) == Le(|m|, 8)
  {}

  lemma EnumeratesSnoc<T(!new)>(order: seq<T>, s: set<T>, x: T)
    requires Enumerates(order, s) && x !in s
    ensures Enumerates(order + [x], s + {x})
  {}

  lemma {:induction false} RecordsSnoc(m: Pairs, order: seq<Bytes>, key: Bytes)
    requires (forall k | k in order :: k in m) && key in m
    ensures Records(m, order + [key]) == Records(m, order) + (Str(key) + Str(m[key]))
    decreases |order|
  {
    hide Str;
    if order == [] {
      assert Records(m, [key][1..]) == [];
    } else {
      RecordsSnoc(m, order[1..], key);
      assert (order + [key])[1..] == order[1..] + [key];
    }
  }
}
