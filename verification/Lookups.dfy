/** What lookups and writes answer, in terms of what clients can see. */
module Lookups {
  import opened ByteStrings
  import opened Commands
  import opened Views
  import opened VNodeStorages
  import opened LruOrders
  import opened VNodeIndexes
  import opened Databases
  import opened Frames
  import opened Mutations
  import opened Sessions

  // ---- one lookup -------------------------------------------------------------------------------------------------

  /** A lookup answers exactly if the query has the cache's dimension and the nearest match is live and not
      beyond the threshold, and then with the cached answer of the entry stored under that id; it changes
      nothing clients can see. */
  lemma GetAnswers(db: Db, blob: Bytes, hit: Option<Hit>, threshold: real)
    requires Coherent(db.index)
    ensures var (st, answer, x) := GetNode(db.index, blob, Within(hit, threshold));
            && ViewOf(db.(index := x)) == ViewOf(db)
            && (st == Okay <==> && db.index.ann.Some? && DimOf(blob) == Some(db.index.ann.value.dim)
                                && hit.Some? && hit.value.distance <= threshold && hit.value.id in db.index.storage.byId)
            && (if st == Okay then
                  exists k :: k in ViewOf(db).cache && db.index.storage.byKey[k] == hit.value.id && answer == ViewOf(db).cache[k].answer
                else answer == [])
            && (st == DimMismatch ==> DimOf(blob).Some?) && (st == BadVectorSize ==> DimOf(blob).None?)
            && (db.index.ann.Some? && DimOf(blob).None? ==> st == BadVectorSize)
            && (db.index.ann.Some? && DimOf(blob).Some? && DimOf(blob).value != db.index.ann.value.dim ==> st == DimMismatch)
  {
    var (st, answer, x) := GetNode(db.index, blob, Within(hit, threshold));
    LookSame(db, blob, Within(hit, threshold));
    if st == Okay {
      var k := db.index.storage.byId[hit.value.id].userKey;
      InverseAtId(db.index.storage, hit.value.id);
      assert k in ViewOf(db).cache && answer == ViewOf(db).cache[k].answer;
    }
  }

  // ---- one write --------------------------------------------------------------------------------------------------

  /** What a VSET answers: which of its arguments is wrong, that the ids have run out, or that it is stored. */
  lemma SetAnswers(db: Db, blob: Bytes, key: Bytes, question: Bytes, answer: Bytes)
    requires Coherent(db.index)
    ensures var st := SetNode(db.index, blob, key, question, answer).0;
            var fits := DimOf(blob).Some? && (db.index.ann.Some? ==> DimOf(blob).value == db.index.ann.value.dim);
            && (st == BadArgument <==> key == [])
            && (st == BadVectorSize <==> key != [] && (blob == [] || |blob| % 4 != 0))
            && (st == DimMismatch <==> key != [] && DimOf(blob).Some? && !fits)
            && (st == Failed <==> key != [] && fits && key !in ViewOf(db).cache && db.index.storage.nextId == 0)
            && (st == Okay <==> key != [] && fits && (key in ViewOf(db).cache || db.index.storage.nextId != 0))
  {}

  /** How many entries clients see. */
  function Size(v: View): nat { |v.kv| + |v.cache| }

  /** The reply of a DEL or VDEL: how many entries clients see no longer. */
  function EntriesGone(c: Cmd, before: Db, after: Db): int {
    if c.Del? || c.Vdel? then Size(ViewOf(before)) - Size(ViewOf(after)) else 0
  }

  /** A write without a key is refused. SET stores whatever it finds; DEL and VDEL reply ok in any case, but they are
      done, and logged, exactly if there was something to delete; then one entry is gone. */
  lemma DoneWhen(db: Db, c: Cmd)
    requires Coherent(db.index)
    ensures var a := Apply(db, c);
            && (!c.Vset? ==> (a.ok <==> HasKey(c)))
            && (a.done <==> a.ok && (c.Del? || c.Vdel? ==> At(ViewOf(db), PlaceOf(c)) != Absent))
            && (c.Del? || c.Vdel? ==> Size(ViewOf(db)) - Size(ViewOf(a.db)) == (if a.done then 1 else 0))
  {
    hide ViewOf, Coherent, SetNode, DelNode, Apply;
    match c
    case Set(key, element) => SetDone(db, c);
    case Del(key) => DelDone(db, c);
    case Vset(_, _, _, _) => VsetDone(db, c);
    case Vdel(key) => VdelDone(db, c);
  }

  lemma SetDone(db: Db, c: Cmd)
    requires c.Set?
    ensures (Apply(db, c).ok <==> HasKey(c)) && (Apply(db, c).done <==> Apply(db, c).ok)
  {}

  lemma VsetDone(db: Db, c: Cmd)
    requires c.Vset?
    ensures Apply(db, c).done <==> Apply(db, c).ok
  {
    hide SetNode;
  }

  lemma DelDone(db: Db, c: Cmd)
    requires c.Del?
    ensures var a := Apply(db, c);
            && (a.ok <==> HasKey(c)) && (a.done <==> a.ok && At(ViewOf(db), PlaceOf(c)) != Absent)
            && Size(ViewOf(db)) - Size(ViewOf(a.db)) == (if a.done then 1 else 0)
  {
    hide CacheOf;
    GoneCount(db.kv, c.key);
  }

  lemma VdelDone(db: Db, c: Cmd)
    requires c.Vdel? && Coherent(db.index)
    ensures var a := Apply(db, c);
            && (a.ok <==> HasKey(c)) && (a.done <==> a.ok && At(ViewOf(db), PlaceOf(c)) != Absent)
            && Size(ViewOf(db)) - Size(ViewOf(a.db)) == (if a.done then 1 else 0)
  {
    hide Coherent, CacheOf, DelByUserKey, Without, Lookup;
    ApplyShows(db, c);
    CachedKeys(db.index, c.userKey);
    GoneCount(CacheOf(db.index), c.userKey);
  }

  lemma GoneCount<V>(m: map<Bytes, V>, key: Bytes)
    ensures |m - {key}| == |m| - (if key in m then 1 else 0)
  {
    assert (m - {key}).Keys == m.Keys - {key};
    if key !in m {
      assert m - {key} == m;
    }
  }

  lemma CachedKeys(x: Index, key: Bytes)
    requires Coherent(x)
    ensures key in CacheOf(x) <==> Lookup(x.storage, key).Some?
    ensures key == [] ==> key !in CacheOf(x)
  {}

  /** Exactly what a client's write puts into the log: itself if it changed something, behind the evictions a
      VSET causes, and only those if the VSET is refused. */
  lemma ClientLogs(db: Db, max: nat, c: Cmd)
    requires Coherent(db.index)
    ensures var d := Client(db, max, c);
            && (!c.Vset? ==> d.writes == if HasKey(c) && (c.Set? || At(ViewOf(db), PlaceOf(c)) != Absent) then [c] else [])
            && (c.Vset? ==> var evicted := Evict(db, max, c.userKey).writes;
                            && d.writes == evicted + (if d.ok then [c] else [])
                            && forall i | 0 <= i < |evicted| :: evicted[i].Vdel?)
  {
    hide Coherent, ViewOf, At, Apply;
    DoneWhen(db, c);
    if c.Vset? {
      EvictMakesRoom(db, max, c.userKey);
      DoneWhen(Evict(db, max, c.userKey).db, c);
    }
  }

  // ---- over a whole run ---------------------------------------------------------------------------------------------

  /** The places written by the requests from the i-th on, evictions included. */
  function WrittenSince(db: Db, max: nat, rs: seq<Ask>, i: nat): set<Place>
    requires Coherent(db.index) && i <= |rs|
  {
    LogGrows(db, max, rs, i);
    Places(ServeAll(db, max, rs).log[|ServeAll(db, max, rs[..i]).log|..])
  }

  /** What no later command wrote is what clients see. */
  lemma Untouched(db: Db, max: nat, rs: seq<Ask>, i: nat, p: Place)
    requires Coherent(db.index) && i <= |rs|
    ensures p !in WrittenSince(db, max, rs, i) ==>
              At(ViewOf(ServeAll(db, max, rs).db), p) == At(ViewOf(ServeAll(db, max, rs[..i]).db), p)
  {
    hide ServeAll, ViewOf, Effects, Places, At;
    var first, last := ServeAll(db, max, rs[..i]), ServeAll(db, max, rs);
    LogGrows(db, max, rs, i);
    SessionShows(db, max, rs[..i]);
    SessionShows(db, max, rs);
    var more := last.log[|first.log|..];
    assert last.log == first.log + more;
    EffectsConcat(ViewOf(db), first.log, more);
    EffectsElsewhere(ViewOf(first.db), more);
  }

  /** A client's VSET that replies ok leaves its entry. */
  lemma Stores(db: Db, max: nat, c: Cmd)
    requires Coherent(db.index) && c.Vset? && Client(db, max, c).ok
    ensures At(ViewOf(Client(db, max, c).db), PlaceOf(c)) == Left(c)
  {
    hide Coherent, ViewOf, Evict, Apply;
    ClientShows(db, max, c);
    EndsWith(db, max, c);
    var w := Client(db, max, c).writes;
    EffectAt(Effects(ViewOf(db), w[..|w| - 1]), c, PlaceOf(c));
  }

  lemma EndsWith(db: Db, max: nat, c: Cmd)
    requires Coherent(db.index) && c.Vset? && Client(db, max, c).ok
    ensures var w := Client(db, max, c).writes; w != [] && w[|w| - 1] == c
  {
    hide Coherent, SetNode, Evict;
    EvictMakesRoom(db, max, c.userKey);
  }

  /** Over every run: once a client has stored an answer under a key, a lookup that hits that key gets this answer,
      and the vector and question stay with it, until the key is stored again, deleted or evicted. */
  lemma AnswersLastStored(db: Db, max: nat, rs: seq<Ask>, i: nat, c: Cmd, blob: Bytes, nearest: Option<Id>)
    requires Coherent(db.index) && i < |rs| && rs[i] == Change(c) && c.Vset? && Client(ServeAll(db, max, rs[..i]).db, max, c).ok
    requires Cached(c.userKey) !in WrittenSince(db, max, rs, i + 1)
    ensures var s := ServeAll(db, max, rs);
            var (st, answer, x) := GetNode(s.db.index, blob, nearest);
            && c.userKey in ViewOf(s.db).cache
            && ViewOf(s.db).cache[c.userKey] == Entry(c.vector, c.question, c.answer)
            && (st == Okay && s.db.index.storage.byId[nearest.value].userKey == c.userKey ==> answer == c.answer)
  {
    hide ViewOf, Client, Places, GetNode;
    var s := ServeAll(db, max, rs);
    Untouched(db, max, rs, i + 1, Cached(c.userKey));
    assert rs[..i + 1][..i] == rs[..i];
    Stores(ServeAll(db, max, rs[..i]).db, max, c);
    if GetNode(s.db.index, blob, nearest).0 == Okay {
      HitIs(s.db, blob, nearest);
    }
  }

  lemma HitIs(db: Db, blob: Bytes, nearest: Option<Id>)
    requires Coherent(db.index) && GetNode(db.index, blob, nearest).0 == Okay
    ensures nearest.Some? && nearest.value in db.index.storage.byId
    ensures var k := db.index.storage.byId[nearest.value].userKey;
            k in ViewOf(db).cache && GetNode(db.index, blob, nearest).1 == ViewOf(db).cache[k].answer
  {
    InverseAtId(db.index.storage, nearest.value);
  }
}
