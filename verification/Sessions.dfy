/** Runs of client requests: the log they leave replays to the same data, the bound on entries is
    kept, and victims are chosen by last use. */
module Sessions {
  import opened ByteStrings
  import opened Commands
  import opened Views
  import opened VNodeStorages
  import opened LruOrders
  import opened VNodeIndexes
  import opened Databases
  import opened Frames
  import opened Mutations

  /** A request as far as the data is concerned. `nearest` is the best match a VGET found, if any. */
  datatype Ask = Change(c: Cmd) | Look(blob: Bytes, nearest: Option<Id>)

  /** The data, and every command logged so far. */
  datatype Session = Session(db: Db, log: seq<Cmd>)

  function Serve(s: Session, max: nat, r: Ask): Session
    requires Coherent(s.db.index)
  {
    match r
    case Change(c) =>
      var d := Client(s.db, max, c);
      Session(d.db, s.log + d.writes)
    case Look(blob, nearest) => s.(db := s.db.(index := GetNode(s.db.index, blob, nearest).2))
  }

  function ServeAll(db: Db, max: nat, rs: seq<Ask>): (s: Session)
    requires Coherent(db.index)
    ensures Coherent(s.db.index)
    decreases |rs|
  {
    if rs == [] then Session(db, [])
    else
      var s := ServeAll(db, max, rs[..|rs| - 1]);
      ServeCoherent(s, max, rs[|rs| - 1]);
      Serve(s, max, rs[|rs| - 1])
  }

  lemma ServeCoherent(s: Session, max: nat, r: Ask)
    requires Coherent(s.db.index)
    ensures Coherent(Serve(s, max, r).db.index)
  {
    hide Coherent;
    match r
    case Change(c) => ClientShows(s.db, max, c);
    case Look(blob, nearest) => GetKeepsCoherent(s.db.index, blob, nearest);
  }

  // ---- replay equals memory -----------------------------------------------------------------------------------

  /** A lookup moves its hit to the end of the access order and changes nothing else. */
  lemma LookSame(db: Db, blob: Bytes, nearest: Option<Id>)
    ensures var t := db.(index := GetNode(db.index, blob, nearest).2);
            SameData(t, db) && (AnnFirst(t) <==> AnnFirst(db)) && ViewOf(t) == ViewOf(db)
  {
    var t := db.(index := GetNode(db.index, blob, nearest).2);
    forall k | k in db.index.storage.byKey ensures EntryOf(t.index, k) == EntryOf(db.index, k) {}
  }

  /** Replay never sees a lookup and never evicts, yet what a run logged, replayed over what it
      started from, gives back the same maps, the same ids and the same next id. */
  lemma {:induction false} ReplayEqualsMemory(db: Db, m: Db, max: nat, rs: seq<Ask>)
    requires Coherent(db.index) && SameData(db, m) && AnnFirst(db)
    ensures var s := ServeAll(db, max, rs);
            var q := Run(m, s.log);
            q.ok && SameData(s.db, q.db) && AnnFirst(s.db) && AllKeyed(s.log)
    decreases |rs|
  {
    hide Coherent, SameData, AnnFirst, Run, Apply, ViewOf, Changes, Client, GetNode;
    if rs == [] {
      NoChanges(m);
    } else {
      var r := rs[|rs| - 1];
      ReplayEqualsMemory(db, m, max, rs[..|rs| - 1]);
      var s := ServeAll(db, max, rs[..|rs| - 1]);
      match r
      case Change(c) =>
        var d := Client(s.db, max, c);
        ClientReplays(s.db, Run(m, s.log).db, max, c);
        RunConcat(m, s.log, d.writes);
        ClientShows(s.db, max, c);
        ChangesRun(s.db, d.writes);
      case Look(blob, nearest) =>
        LookSame(s.db, blob, nearest);
        SameTwice(Serve(s, max, r).db, s.db, Run(m, s.log).db);
    }
  }

  /** ... byte for byte: the append-only file of a run from the empty store replays to memory. */
  lemma FileEqualsMemory(max: nat, rs: seq<Ask>)
    ensures Coherent(NO_NODES)
    ensures var s := ServeAll(EMPTY_DB, max, rs);
            var q := ReplayOf(EMPTY_DB, EncodeAll(s.log));
            q.ok && q.applied == |s.log| && SameData(s.db, q.db)
  {
    hide SplitOf, RunTokens, Run, EncodeAll;
    ReplayEqualsMemory(EMPTY_DB, EMPTY_DB, max, rs);
    ReplayWhole(EMPTY_DB, ServeAll(EMPTY_DB, max, rs).log);
  }

  /** Clients see the effects of the log, and the log of a longer run extends that of a shorter. */
  lemma {:induction false} SessionShows(db: Db, max: nat, rs: seq<Ask>)
    requires Coherent(db.index)
    ensures ViewOf(ServeAll(db, max, rs).db) == Effects(ViewOf(db), ServeAll(db, max, rs).log)
    decreases |rs|
  {
    hide Coherent, ViewOf, Client, GetNode, Changes, Effects;
    if rs == [] {
      NoEffects(ViewOf(db), []);
    } else {
      SessionShows(db, max, rs[..|rs| - 1]);
      var s := ServeAll(db, max, rs[..|rs| - 1]);
      match rs[|rs| - 1]
      case Change(c) =>
        ClientShows(s.db, max, c);
        EffectsConcat(ViewOf(db), s.log, Client(s.db, max, c).writes);
      case Look(blob, nearest) => LookSame(s.db, blob, nearest);
    }
  }

  lemma {:induction false} LogGrows(db: Db, max: nat, rs: seq<Ask>, i: nat)
    requires Coherent(db.index) && i <= |rs|
    ensures ServeAll(db, max, rs[..i]).log <= ServeAll(db, max, rs).log
    decreases |rs| - i
  {
    hide Coherent, Client, GetNode;
    if i < |rs| {
      LogGrows(db, max, rs, i + 1);
      assert rs[..i + 1][..i] == rs[..i];
    } else {
      assert rs[..i] == rs;
    }
  }

  // ---- the bound on entries --------------------------------------------------------------------------------------

  function Count(db: Db): nat { |db.index.storage.byId| }

  lemma PutCount(s: Storage, n: Node)
    requires Inverse(s) && Put(s, n).Stored?
    ensures |Put(s, n).storage.byId| <= |s.byId| + (if n.userKey !in s.byKey then 1 else 0)
  {
    hide Inverse;
    if n.userKey in s.byKey {
      InverseAt(s, n.userKey);
    }
  }

  lemma DelCount(s: Storage, key: Bytes)
    requires key in s.byKey
    ensures DelByUserKey(s, key).Some? && |DelByUserKey(s, key).value.byId| <= |s.byId|
  {
    CardinalSubset(DelByUserKey(s, key).value.byId.Keys, s.byId.Keys);
  }

  lemma LoggedCount(db: Db, c: Cmd)
    requires Coherent(db.index)
    ensures Count(Logged(db, c).db) <= Count(db) + (if c.Vset? && c.userKey !in db.index.storage.byKey then 1 else 0)
  {
    hide Put, DelByUserKey, Without, Used;
    match c
    case Vset(_, userKey, question, answer) =>
      if Put(db.index.storage, Node(0, userKey, question, answer)).Stored? {
        PutCount(db.index.storage, Node(0, userKey, question, answer));
      }
    case Vdel(userKey) =>
      if Lookup(db.index.storage, userKey).Some? {
        DelCount(db.index.storage, userKey);
      }
    case _ =>
  }

  lemma CardinalSubset(a: set<Id>, b: set<Id>)
    requires a <= b
    ensures |a| <= |b|
  {
    assert b == a + (b - a);
  }

  /** A run that starts within the limit stays within it. */
  lemma ClientBound(db: Db, max: nat, c: Cmd)
    requires Coherent(db.index) && max > 0 && Count(db) <= max
    ensures Count(Client(db, max, c).db) <= max
  {
    hide Coherent, Logged, Evict;
    LoggedCount(db, c);
    if c.Vset? {
      EvictMakesRoom(db, max, c.userKey);
      var e := Evict(db, max, c.userKey);
      LoggedCount(e.db, c);
      LookupIs(e.db.index, c.userKey);
      LookupIs(db.index, c.userKey);
      if c.userKey == [] {
        EmptyKey(e.db, c);
      }
    }
  }

  lemma EmptyKey(db: Db, c: Cmd)
    requires c.Vset? && c.userKey == []
    ensures Logged(db, c).db == db
  {}

  lemma {:induction false} BoundKept(db: Db, max: nat, rs: seq<Ask>)
    requires Coherent(db.index) && max > 0 && Count(db) <= max
    ensures Count(ServeAll(db, max, rs).db) <= max
    decreases |rs|
  {
    hide Coherent, Client;
    if rs != [] {
      BoundKept(db, max, rs[..|rs| - 1]);
      var s := ServeAll(db, max, rs[..|rs| - 1]);
      match rs[|rs| - 1]
      case Change(c) => ClientBound(s.db, max, c);
      case Look(_, _) =>
    }
  }
}
