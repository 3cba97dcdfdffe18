/** VNodeStorage: nodes by assigned uint16 id, with a second index by user key. */
module VNodeStorages {
  import opened ByteStrings

  type Id = x: int | 0 <= x < 0x10000

  datatype Node = Node(id: Id, userKey: Bytes, question: Bytes, answer: Bytes)

  /** nextId 0 means that every id has been given out. */
  datatype Storage = Storage(byId: map<Id, Node>, byKey: map<Bytes, Id>, nextId: Id)

  const EMPTY := Storage(map[], map[], 1)

  datatype PutResult = Stored(id: Id, storage: Storage) | Full | BadValue

  function Put(s: Storage, n: Node): PutResult {
    if n.userKey == [] then BadValue
    else if n.userKey in s.byKey then
      var id := s.byKey[n.userKey];
      Stored(id, s.(byId := s.byId[id := n.(id := id)]))
    else if s.nextId == 0 then Full
    else
      var id := s.nextId;
      Stored(id, Storage(s.byId[id := n.(id := id)], s.byKey[n.userKey := id], (id + 1) % 0x10000))
  }

  function Restore(s: Storage, n: Node): Option<Storage> {
    if n.userKey == [] || n.id == 0 then None
    else if n.id in s.byId || n.userKey in s.byKey then None
    else Some(s.(byId := s.byId[n.id := n], byKey := s.byKey[n.userKey := n.id]))
  }

  function DelByUserKey(s: Storage, userKey: Bytes): Option<Storage> {
    if userKey !in s.byKey then None
    else Some(s.(byId := s.byId - {s.byKey[userKey]}, byKey := s.byKey - {userKey}))
  }

  /** The two indexes are mutual inverses and no id is 0. */
  ghost predicate Inverse(s: Storage) {
    && (forall k | k in s.byKey :: s.byKey[k] in s.byId && s.byId[s.byKey[k]].userKey == k)
    && (forall i | i in s.byId ::
          i != 0 && s.byId[i].id == i && s.byId[i].userKey != []
          && s.byId[i].userKey in s.byKey && s.byKey[s.byId[i].userKey] == i)
  }

  /** The next id, if there is one, is above every live id. */
  ghost predicate Fresh(s: Storage) {
    s.nextId == 0 || forall i | i in s.byId :: i < s.nextId
  }

  lemma InverseAt(s: Storage, k: Bytes)
    requires Inverse(s) && k in s.byKey
    ensures s.byKey[k] in s.byId && s.byId[s.byKey[k]].id == s.byKey[k]
    ensures s.byId[s.byKey[k]].userKey == k
  {}

  lemma InverseAtId(s: Storage, i: Id)
    requires Inverse(s) && i in s.byId
    ensures i != 0 && s.byId[i].id == i && s.byId[i].userKey != []
    ensures s.byId[i].userKey in s.byKey && s.byKey[s.byId[i].userKey] == i
  {}

  lemma PutKeepsInverse(s: Storage, n: Node)
    requires Inverse(s) && Fresh(s) && Put(s, n).Stored?
    ensures Inverse(Put(s, n).storage) && Fresh(Put(s, n).storage)
    ensures n.userKey !in s.byKey ==> Put(s, n).id !in s.byId
  {}

  lemma RestoreKeepsInverse(s: Storage, n: Node)
    requires Inverse(s) && Restore(s, n).Some?
    ensures Inverse(Restore(s, n).value)
  {}

  lemma DelKeepsInverse(s: Storage, userKey: Bytes)
    requires Inverse(s) && Fresh(s) && DelByUserKey(s, userKey).Some?
    ensures Inverse(DelByUserKey(s, userKey).value) && Fresh(DelByUserKey(s, userKey).value)
  {}

  class VNodeStorage {
    var nextId: Id
    var byId: map<Id, Node>
    var byKey: map<Bytes, Id>

    ghost function Model(): Storage
      reads this
    {
      Storage(byId, byKey, nextId)
    }

    constructor ()
      ensures Model() == EMPTY
    {
      nextId, byId, byKey := 1, map[], map[];
    }

    method PutNode(node: Node) returns (ok: bool, full: bool, id: Id)
      modifies this
      ensures match Put(old(Model()), node)
              case Stored(i, s) => ok && id == i && Model() == s
              case Full => !ok && full && Model() == old(Model())
              case BadValue => !ok && !full && Model() == old(Model())
    {
      id := 0;
      if node.userKey == [] {
        return false, false, 0;
      }
      if node.userKey in byKey {
        id := byKey[node.userKey];
        byId := byId[id := node.(id := id)];
        return true, false, id;
      }
      if nextId == 0 {
        return false, true, 0;
      }
      id := nextId;
      nextId := (nextId + 1) % 0x10000;
      byKey := byKey[node.userKey := id];
      byId := byId[id := node.(id := id)];
      return true, false, id;
    }

    method RestoreNode(node: Node) returns (ok: bool)
      modifies this
      ensures ok == Restore(old(Model()), node).Some?
      ensures Model() == if ok then Restore(old(Model()), node).value else old(Model())
    {
      if node.userKey == [] || node.id == 0 {
        return false;
      }
      if node.id in byId || node.userKey in byKey {
        return false;
      }
      byKey := byKey[node.userKey := node.id];
      byId := byId[node.id := node];
      return true;
    }

    method GetById(id: Id) returns (r: Option<Node>)
      ensures r == if id in byId then Some(byId[id]) else None
    {
      r := if id in byId then Some(byId[id]) else None;
    }

    method GetByUserKey(userKey: Bytes) returns (r: Option<Node>)
      ensures r == if userKey in byKey && byKey[userKey] in byId then Some(byId[byKey[userKey]]) else None
    {
      if userKey !in byKey {
        return None;
      }
      r := GetById(byKey[userKey]);
    }

    method DelUserKey(userKey: Bytes) returns (ok: bool)
      modifies this
      ensures ok == DelByUserKey(old(Model()), userKey).Some?
      ensures Model() == if ok then DelByUserKey(old(Model()), userKey).value else old(Model())
    {
      if userKey !in byKey {
        return false;
      }
      byId := byId - {byKey[userKey]};
      byKey := byKey - {userKey};
      return true;
    }

    method SetNextId(id: Id)
      modifies this
      ensures Model() == old(Model()).(nextId := id)
    {
      nextId := id;
    }

    method Clear()
      modifies this
      ensures Model() == EMPTY
    {
      byId, byKey, nextId := map[], map[], 1;
    }
  }
}

/** LruOrder: exact access order, least recently used first. */
module LruOrders {
  import opened ByteStrings
  import opened VNodeStorages

  ghost predicate Distinct(o: seq<Id>) {
    forall i, j | 0 <= i < j < |o| :: o[i] != o[j]
  }

  function Without(o: seq<Id>, id: Id): (r: seq<Id>)
    ensures forall x | x in r :: x in o && x != id
    ensures forall x | x in o && x != id :: x in r
    ensures id !in o ==> r == o
  {
    if o == [] then [] else if o[0] == id then Without(o[1..], id) else [o[0]] + Without(o[1..], id)
  }

  function Used(o: seq<Id>, id: Id): seq<Id> { Without(o, id) + [id] }

  lemma {:induction false} WithoutDistinct(o: seq<Id>, id: Id)
    requires Distinct(o)
    ensures Distinct(Without(o, id))
  {
    if o != [] {
      WithoutDistinct(o[1..], id);
      assert o[0] !in o[1..];
    }
  }

  lemma UsedDistinct(o: seq<Id>, id: Id)
    requires Distinct(o)
    ensures Distinct(Used(o, id))
  {
    WithoutDistinct(o, id);
    assert id !in Without(o, id);
  }

  // ---- an order of distinct nonzero uint16 ids has at most 65535 entries ------------------

  function Upto(n: nat): (r: set<int>)
    ensures |r| == n
    ensures forall x :: x in r <==> 1 <= x <= n
  {
    if n == 0 then {} else Upto(n - 1) + {n}
  }

  function Members(o: seq<Id>): (r: set<int>)
    ensures forall x: int :: x in r ==> 0 <= x < 0x10000 && x in o
  {
    if o == [] then {} else Members(o[..|o| - 1]) + {o[|o| - 1]}
  }

  lemma {:induction false} DistinctSize(o: seq<Id>)
    requires Distinct(o)
    ensures |Members(o)| == |o|
  {
    if o != [] {
      var n := |o| - 1;
      DistinctSize(o[..n]);
      assert o[n] !in o[..n];
    }
  }

  lemma Bounded(o: seq<Id>, n: nat)
    requires Distinct(o) && forall x | x in o :: 1 <= x <= n
    ensures |o| <= n
  {
    DistinctSize(o);
    assert Members(o) <= Upto(n);
    assert Upto(n) == Members(o) + (Upto(n) - Members(o));
  }

  lemma OrderBound(o: seq<Id>)
    requires Distinct(o) && 0 !in o
    ensures |o| <= 65535
  {
    Bounded(o, 65535);
  }

  class LruOrder {
    var order: seq<Id>
    var known: set<Id>   // keys of the id -> list position map

    ghost predicate Valid()
      reads this
    {
      Distinct(order) && (forall x :: x in known <==> x in order)
    }

    constructor ()
      ensures Valid() && order == []
    {
      order, known := [], {};
    }

    method Touch(id: Id)
      requires Valid()
      modifies this
      ensures Valid()
      ensures order == if id in old(order) then Used(old(order), id) else old(order)
    {
      if id !in known {
        return;
      }
      UsedDistinct(order, id);
      order := Used(order, id);
    }

    method Push(id: Id)
      requires Valid()
      modifies this
      ensures Valid() && order == Used(old(order), id)
    {
      UsedDistinct(order, id);
      if id in known {
        order := Used(order, id);
        return;
      }
      assert Without(order, id) == order;
      order := order + [id];
      known := known + {id};
    }

    method Erase(id: Id) returns (found: bool)
      requires Valid()
      modifies this
      ensures Valid() && found == (id in old(order)) && order == Without(old(order), id)
    {
      if id !in known {
        return false;
      }
      WithoutDistinct(order, id);
      order := Without(order, id);
      known := known - {id};
      return true;
    }

    method PeekLru() returns (r: Option<Id>)
      requires Valid()
      ensures r == if order == [] then None else Some(order[0])
    {
      r := if order == [] then None else Some(order[0]);
    }

    method PopLru() returns (r: Option<Id>)
      requires Valid()
      modifies this
      ensures Valid()
      ensures old(order) == [] ==> r == None && order == []
      ensures old(order) != [] ==> r == Some(old(order)[0]) && order == old(order)[1..]
    {
      if order == [] {
        return None;
      }
      var id := order[0];
      order := order[1..];
      known := known - {id};
      return Some(id);
    }

    method Clear()
      modifies this
      ensures Valid() && order == []
    {
      order, known := [], {};
    }
  }
}
