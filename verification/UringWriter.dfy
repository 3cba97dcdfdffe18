/** The inline io_uring AOF writer: positional writes that complete in any order and in pieces. */
module UringWriters {
  import opened ByteStrings

  // ---- the ring and the file ------------------------------------------------------------------------------

  datatype Request = Request(userData: nat, offset: nat, data: Bytes)

  /** A completion: how many bytes were written, or an error. */
  datatype Cqe = Cqe(userData: nat, res: int)

  /** The positions of a file that have been written. */
  type Content = map<nat, byte>

  ghost function ContentOf(b: Bytes): Content { map p: nat | p < |b| :: b[p] }

  predicate From(offset: nat, p: nat) { offset <= p }

  /** The file after a positional write. */
  ghost function Put(file: Content, offset: nat, data: Bytes): Content {
    file + map p: nat | p < offset + |data| && From(offset, p) :: data[p - offset]
  }

  /** Bytes and requests not completed yet: every completion makes it smaller. */
  function Work(q: seq<Request>): nat {
    if q == [] then 0 else |q[0].data| + 1 + Work(q[1..])
  }

  lemma {:induction false} WorkConcat(a: seq<Request>, b: seq<Request>)
    ensures Work(a + b) == Work(a) + Work(b)
  {
    if a == [] {
      assert a + b == b;
    } else {
      assert (a + b)[1..] == a[1..] + b;
      WorkConcat(a[1..], b);
    }
  }

  lemma WorkWithout(q: seq<Request>, i: nat)
    requires i < |q|
    ensures Work(q[..i] + q[i + 1..]) == Work(q) - |q[i].data| - 1
  {
    assert q == q[..i] + ([q[i]] + q[i + 1..]);
    WorkConcat(q[..i], [q[i]] + q[i + 1..]);
    WorkConcat([q[i]], q[i + 1..]);
    WorkConcat(q[..i], q[i + 1..]);
    assert Work([q[i]]) == |q[i].data| + 1;
  }

  /** The kernel's side: what it does and when is not determined. */
  class Ring {
    var staged: seq<Request>     // prepared, not submitted
    var inflight: seq<Request>   // submitted, not completed
    ghost var file: Content
    ghost var unsynced: bool     // some bytes have been written since the last sync
    ghost var refusals: nat      // how often it has said no: a request, wait or sync refused, a write failed
    ghost var empties: nat       // how often it has had no completion to give

    ghost function All(): seq<Request>
      reads this`inflight, this`staged
    {
      inflight + staged
    }

    constructor (initial: Bytes)
      ensures staged == [] && inflight == [] && file == ContentOf(initial) && !unsynced
    {
      staged, inflight, file, unsynced, refusals, empties := [], [], ContentOf(initial), false, 0, 0;
    }

    method GetSqe() returns (ok: bool)
      modifies this`refusals
      ensures refusals == old(refusals) + if ok then 0 else 1
    {
      ok := Says();
    }

    /** Yes or no. */
    method Says() returns (ok: bool)
      modifies this`refusals
      ensures refusals == old(refusals) + if ok then 0 else 1
    {
      ok := *;
      if !ok {
        refusals := refusals + 1;
      }
    }

    method PrepWrite(r: Request)
      modifies this`staged
      ensures staged == old(staged) + [r]
    {
      staged := staged + [r];
    }

    /** On failure what was prepared stays prepared. */
    method Submit() returns (ok: bool)
      modifies this`staged, this`inflight, this`refusals
      ensures All() == old(All()) && refusals == old(refusals) + if ok then 0 else 1
      ensures if ok then staged == [] else staged == old(staged) && inflight == old(inflight)
    {
      ok := Says();
      if ok {
        inflight := inflight + staged;
        staged := [];
      }
    }

    /** Any request may complete next, with an error or with any part of its bytes written. */
    method TakeCqe() returns (c: Option<Cqe>, ghost i: nat)
      modifies this`inflight, this`file, this`unsynced, this`refusals, this`empties
      ensures refusals == old(refusals) + if c.Some? && c.value.res < 0 then 1 else 0
      ensures empties == old(empties) + if c.None? then 1 else 0
      ensures c.None? ==> inflight == old(inflight) && file == old(file) && unsynced == old(unsynced)
      ensures c.Some? ==>
                && i < |old(inflight)| && inflight == old(inflight)[..i] + old(inflight)[i + 1..]
                && var r := old(inflight)[i];
                   && c.value.userData == r.userData && c.value.res <= |r.data|
                   && file == (if c.value.res > 0 then Put(old(file), r.offset, r.data[..c.value.res]) else old(file))
                   && unsynced == (old(unsynced) || c.value.res > 0)
    {
      i := 0;
      var none: bool := *;
      if inflight == [] || none {
        empties := empties + 1;
        return None, i;
      }
      var j: int := *;
      if j < 0 || j >= |inflight| {
        j := 0;
      }
      var r := inflight[j];
      var res: int := *;
      if res > |r.data| {
        res := |r.data|;
      }
      i := j;
      inflight := inflight[..j] + inflight[j + 1..];
      if res > 0 {
        file := Put(file, r.offset, r.data[..res]);
        unsynced := true;
      } else if res < 0 {
        refusals := refusals + 1;
      }
      return Some(Cqe(r.userData, res)), i;
    }

    method WaitCqe() returns (ok: bool)
      modifies this`refusals
      ensures refusals == old(refusals) + if ok then 0 else 1
    {
      ok := Says();
    }

    method Sync() returns (ok: bool)
      modifies this`unsynced, this`refusals
      ensures unsynced == (old(unsynced) && !ok) && refusals == old(refusals) + if ok then 0 else 1
    {
      ok := Says();
      if ok {
        unsynced := false;
      }
    }
  }

  // ---- what the writer keeps --------------------------------------------------------------------------------

  datatype PendingWrite = PendingWrite(buf: Bytes, written: nat, offset: nat, userData: nat)

  /** Each pending write is a piece of the bytes laid out for the file, under its own tag. */
  ghost predicate Slices(pending: seq<PendingWrite>, laid: Bytes, next: nat) {
    && (forall i | 0 <= i < |pending| ::
          var w := pending[i];
          w.written < |w.buf| && w.offset + |w.buf| <= |laid| && w.buf == laid[w.offset..w.offset + |w.buf|] && w.userData < next)
    && (forall i, j | 0 <= i < j < |pending| ::
          pending[i].userData != pending[j].userData && pending[i].offset + |pending[i].buf| <= pending[j].offset)
  }

  ghost predicate Rest(w: PendingWrite, r: Request) {
    w.written <= |w.buf| && r.offset == w.offset + w.written && r.data == w.buf[w.written..]
  }

  /** A request asks for exactly the unwritten rest of its pending write, if that is still there. */
  ghost predicate Matched(pending: seq<PendingWrite>, reqs: seq<Request>, next: nat) {
    && (forall j | 0 <= j < |reqs| :: reqs[j].userData < next)
    && (forall i, j | 0 <= i < j < |reqs| :: reqs[i].userData != reqs[j].userData)
    && (forall i, j | 0 <= i < |pending| && 0 <= j < |reqs| && pending[i].userData == reqs[j].userData ::
          Rest(pending[i], reqs[j]))
  }

  ghost predicate Owned(pending: seq<PendingWrite>, r: Request) {
    exists i :: 0 <= i < |pending| && pending[i].userData == r.userData
  }

  ghost predicate AllOwned(pending: seq<PendingWrite>, reqs: seq<Request>) {
    forall j | 0 <= j < |reqs| :: Owned(pending, reqs[j])
  }

  ghost predicate Awaited(pending: seq<PendingWrite>, p: nat) {
    exists i :: 0 <= i < |pending| && pending[i].offset + pending[i].written <= p < pending[i].offset + |pending[i].buf|
  }

  /** What is in the file is right; what is laid out is in the file, awaited, or lost, and never two of them. */
  ghost predicate Filled(pending: seq<PendingWrite>, laid: Bytes, file: Content, lost: set<nat>) {
    && (forall p | p in file :: p < |laid| && file[p] == laid[p])
    && (forall p: nat | p < |laid| :: p in file || Awaited(pending, p) || p in lost)
    && (forall p: nat | Awaited(pending, p) :: p !in file && p !in lost)
    && (forall p | p in lost :: p < |laid| && p !in file)
  }

  /** The positions of a write that have not been written. */
  ghost function Unwritten(w: PendingWrite): set<nat> { Span(w.offset + w.written, w.offset + |w.buf|) }

  ghost function Span(lo: nat, hi: nat): set<nat> { set p: nat | p < hi && From(lo, p) }

  ghost predicate Begun(pending: seq<PendingWrite>) { exists i :: 0 <= i < |pending| && pending[i].written > 0 }

  function Drop<T>(s: seq<T>, i: nat): seq<T>
    requires i < |s|
  {
    s[..i] + s[i + 1..]
  }

  ghost predicate Covers(w: PendingWrite, p: nat) { w.offset + w.written <= p < w.offset + |w.buf| }

  /** A position is awaited by one write at most. */
  lemma AwaitedOnce(pending: seq<PendingWrite>, laid: Bytes, next: nat, i: nat, k: nat, p: nat)
    requires Slices(pending, laid, next) && i < |pending| && k < |pending| && Covers(pending[i], p) && Covers(pending[k], p)
    ensures i == k
  {}

  lemma AwaitedAt(pending: seq<PendingWrite>, i: nat, p: nat)
    requires i < |pending| && Covers(pending[i], p)
    ensures Awaited(pending, p)
  {}

  /** Positions written by a request of the write at i. */
  lemma PutRight(pending: seq<PendingWrite>, laid: Bytes, next: nat, i: nat, r: Request, n: nat, file: Content)
    requires Slices(pending, laid, next) && i < |pending| && Rest(pending[i], r) && n <= |r.data|
    ensures var f := Put(file, r.offset, r.data[..n]);
            && (forall p :: p in f <==> p in file || r.offset <= p < r.offset + n)
            && (forall p | p in f :: if r.offset <= p < r.offset + n then p < |laid| && f[p] == laid[p] else f[p] == file[p])
            && (forall p: nat | r.offset <= p < r.offset + n :: Covers(pending[i], p))
  {
    var w := pending[i];
    forall k | 0 <= k < n ensures r.data[..n][k] == laid[r.offset + k] {
      assert w.buf[w.written + k] == laid[w.offset + w.written + k];
    }
  }

  /** All of the rest has been written. */
  lemma Completed(pending: seq<PendingWrite>, laid: Bytes, next: nat, i: nat, r: Request, file: Content, lost: set<nat>)
    requires Slices(pending, laid, next) && i < |pending| && Rest(pending[i], r) && Filled(pending, laid, file, lost)
    ensures Filled(Drop(pending, i), laid, Put(file, r.offset, r.data), lost)
  {
    hide Put, Slices;
    PutRight(pending, laid, next, i, r, |r.data|, file);
    assert r.data[..|r.data|] == r.data;
    var f := Put(file, r.offset, r.data);
    forall p: nat ensures Awaited(Drop(pending, i), p) <==> Awaited(pending, p) && !Covers(pending[i], p) {
      DropAwaits(pending, laid, next, i, p);
    }
    forall p: nat | r.offset <= p < r.offset + |r.data| ensures Awaited(pending, p) {
      AwaitedAt(pending, i, p);
    }
  }

  /** Without the write at i, what it covered is no longer awaited. */
  lemma DropAwaits(pending: seq<PendingWrite>, laid: Bytes, next: nat, i: nat, p: nat)
    requires Slices(pending, laid, next) && i < |pending|
    ensures Awaited(Drop(pending, i), p) <==> Awaited(pending, p) && !Covers(pending[i], p)
  {
    hide Slices, Covers;
    AwaitsAt(pending, p);
    AwaitsAt(Drop(pending, i), p);
    if Awaited(Drop(pending, i), p) {
      var k :| 0 <= k < |Drop(pending, i)| && Covers(Drop(pending, i)[k], p);
      var m := if k < i then k else k + 1;
      assert pending[m] == Drop(pending, i)[k];
      if Covers(pending[i], p) {
        AwaitedOnce(pending, laid, next, i, m, p);
      }
    }
    if Awaited(pending, p) && !Covers(pending[i], p) {
      var k :| 0 <= k < |pending| && Covers(pending[k], p);
      assert Drop(pending, i)[if k < i then k else k - 1] == pending[k];
    }
  }

  lemma AwaitsAt(pending: seq<PendingWrite>, p: nat)
    ensures Awaited(pending, p) <==> exists i :: 0 <= i < |pending| && Covers(pending[i], p)
  {
    if Awaited(pending, p) {
      var i :| 0 <= i < |pending| && pending[i].offset + pending[i].written <= p < pending[i].offset + |pending[i].buf|;
      assert Covers(pending[i], p);
    }
  }

  /** Nothing was written and the write is forgotten: exactly its unwritten positions are lost. */
  lemma Forgotten(pending: seq<PendingWrite>, laid: Bytes, next: nat, i: nat, file: Content, lost: set<nat>)
    requires Slices(pending, laid, next) && i < |pending| && Filled(pending, laid, file, lost)
    ensures Filled(Drop(pending, i), laid, file, lost + Unwritten(pending[i])) && Unwritten(pending[i]) != {}
  {
    var more := lost + Unwritten(pending[i]);
    forall p: nat ensures p in Unwritten(pending[i]) <==> Covers(pending[i], p) {}
    assert pending[i].offset + pending[i].written in Unwritten(pending[i]);
    assert pending[i].offset + |pending[i].buf| <= |laid|;
    forall p: nat | Covers(pending[i], p) ensures Awaited(pending, p) && p < |laid| {
      AwaitedAt(pending, i, p);
    }
    hide Slices;
    forall p: nat ensures Awaited(Drop(pending, i), p) <==> Awaited(pending, p) && !Covers(pending[i], p) {
      DropAwaits(pending, laid, next, i, p);
    }
    hide Covers, Unwritten, Awaited, Drop;
  }

  /** Only part of the rest has been written. */
  lemma Shortened(pending: seq<PendingWrite>, laid: Bytes, next: nat, i: nat, r: Request, n: nat, file: Content, lost: set<nat>)
    requires Slices(pending, laid, next) && i < |pending| && Rest(pending[i], r) && Filled(pending, laid, file, lost)
    requires n < |r.data|
    ensures var w := pending[i].(written := pending[i].written + n);
            Filled(pending[i := w], laid, Put(file, r.offset, r.data[..n]), lost) && Slices(pending[i := w], laid, next)
  {
    hide Put, Slices;
    PutRight(pending, laid, next, i, r, n, file);
    var w := pending[i].(written := pending[i].written + n);
    var q := pending[i := w];
    forall p: nat ensures Awaited(q, p) <==> Awaited(pending, p) && !(r.offset <= p < r.offset + n) {
      LessAwaits(pending, laid, next, q, i, n, p);
    }
    forall p: nat | r.offset <= p < r.offset + n ensures Awaited(pending, p) {
      AwaitedAt(pending, i, p);
    }
    ShorterSlices(pending, laid, next, i, n);
  }

  lemma LessAwaits(pending: seq<PendingWrite>, laid: Bytes, next: nat, q: seq<PendingWrite>, i: nat, n: nat, p: nat)
    requires Slices(pending, laid, next) && i < |pending| && q == pending[i := pending[i].(written := pending[i].written + n)]
    requires pending[i].written + n <= |pending[i].buf|
    ensures var from := pending[i].offset + pending[i].written;
            Awaited(q, p) <==> Awaited(pending, p) && !(from <= p < from + n)
  {
    if Awaited(q, p) {
      var k :| 0 <= k < |q| && q[k].offset + q[k].written <= p < q[k].offset + |q[k].buf|;
      assert Covers(pending[k], p);
      if k != i && Covers(pending[i], p) {
        AwaitedOnce(pending, laid, next, i, k, p);
      }
    } else if Awaited(pending, p) {
      var k :| 0 <= k < |pending| && pending[k].offset + pending[k].written <= p < pending[k].offset + |pending[k].buf|;
      assert !Covers(q[k], p);
    }
  }

  lemma ShorterSlices(pending: seq<PendingWrite>, laid: Bytes, next: nat, i: nat, n: nat)
    requires Slices(pending, laid, next) && i < |pending| && pending[i].written + n < |pending[i].buf|
    ensures Slices(pending[i := pending[i].(written := pending[i].written + n)], laid, next)
  {
    var q := pending[i := pending[i].(written := pending[i].written + n)];
    forall k | 0 <= k < |q| ensures q[k].userData == pending[k].userData && q[k].buf == pending[k].buf && q[k].offset == pending[k].offset {}
  }

  lemma DropSlices(pending: seq<PendingWrite>, laid: Bytes, next: nat, i: nat)
    requires Slices(pending, laid, next) && i < |pending|
    ensures Slices(Drop(pending, i), laid, next)
  {}

  /** The completed request goes, and with it the pending write it belonged to. */
  lemma BothDropped(pending: seq<PendingWrite>, reqs: seq<Request>, next: nat, laid: Bytes, i: nat, j: nat)
    requires Matched(pending, reqs, next) && Slices(pending, laid, next) && i < |pending| && j < |reqs|
    requires pending[i].userData == reqs[j].userData
    ensures Matched(Drop(pending, i), Drop(reqs, j), next)
    ensures AllOwned(pending, reqs) ==> AllOwned(Drop(pending, i), Drop(reqs, j))
  {
    hide Rest, Owned, AllOwned;
    if AllOwned(pending, reqs) {
      BothOwned(pending, reqs, next, i, j);
    }
  }

  lemma BothOwned(pending: seq<PendingWrite>, reqs: seq<Request>, next: nat, i: nat, j: nat)
    requires Matched(pending, reqs, next) && i < |pending| && j < |reqs| && AllOwned(pending, reqs)
    requires pending[i].userData == reqs[j].userData
    ensures AllOwned(Drop(pending, i), Drop(reqs, j))
  {
    hide Rest;
    forall k | 0 <= k < |Drop(reqs, j)| ensures Owned(Drop(pending, i), Drop(reqs, j)[k]) {
      var r := Drop(reqs, j)[k];
      assert r == reqs[if k < j then k else k + 1];
      assert Owned(pending, r);
      var m :| 0 <= m < |pending| && pending[m].userData == r.userData;
      assert m != i;
      assert Drop(pending, i)[if m < i then m else m - 1] == pending[m];
    }
  }

  lemma RequestDropped(pending: seq<PendingWrite>, reqs: seq<Request>, next: nat, j: nat)
    requires Matched(pending, reqs, next) && j < |reqs|
    ensures Matched(pending, Drop(reqs, j), next)
    ensures AllOwned(pending, reqs) ==> AllOwned(pending, Drop(reqs, j))
  {
    hide Rest, Owned;
  }

  /** The rest of a short write, asked for again under the same tag. */
  function Again(w: PendingWrite, n: nat): Request
    requires w.written + n <= |w.buf|
  {
    Request(w.userData, w.offset + w.written + n, w.buf[w.written + n..])
  }

  lemma ReplaceWork(reqs: seq<Request>, j: nat, r: Request)
    requires j < |reqs| && |r.data| < |reqs[j].data|
    ensures Work(Drop(reqs, j) + [r]) < Work(reqs)
  {
    WorkWithout(reqs, j);
    WorkConcat(Drop(reqs, j), [r]);
    assert [r][1..] == [];
  }

  lemma TagsGone(pending: seq<PendingWrite>, i: nat, tag: nat, laid: Bytes, next: nat)
    requires Slices(pending, laid, next) && i < |pending| && pending[i].userData == tag
    ensures forall k | 0 <= k < |Drop(pending, i)| :: Drop(pending, i)[k].userData != tag
  {}

  lemma OnlyAt(pending: seq<PendingWrite>, i: nat, w: PendingWrite, reqs: seq<Request>, next: nat, laid: Bytes, j: nat)
    requires Matched(pending, reqs, next) && Slices(pending, laid, next) && i < |pending| && j < |reqs|
    requires pending[i].userData == reqs[j].userData && w.userData == pending[i].userData
    ensures Matched(pending[i := w], Drop(reqs, j), next) && Matched(Drop(pending, i), Drop(reqs, j), next)
  {
    hide Rest;
    forall k | 0 <= k < |Drop(reqs, j)| ensures Drop(reqs, j)[k].userData != reqs[j].userData {
      assert Drop(reqs, j)[k] == reqs[if k < j then k else k + 1];
    }
  }

  lemma Resubmitted(pending: seq<PendingWrite>, reqs: seq<Request>, laid: Bytes, next: nat, i: nat, j: nat, n: nat)
    requires Matched(pending, reqs, next) && Slices(pending, laid, next) && i < |pending| && j < |reqs|
    requires pending[i].userData == reqs[j].userData && 0 < n < |pending[i].buf| - pending[i].written
    requires Rest(pending[i], reqs[j])
    ensures var w := pending[i].(written := pending[i].written + n);
            var q := Drop(reqs, j) + [Again(pending[i], n)];
            && Matched(pending[i := w], q, next) && (AllOwned(pending, reqs) ==> AllOwned(pending[i := w], q))
            && Matched(Drop(pending, i), q, next) && Matched(Drop(pending, i), Drop(reqs, j), next)
            && Work(q) < Work(reqs)
  {
    hide Matched, AllOwned, Slices, Work;
    var w := pending[i].(written := pending[i].written + n);
    var r := Again(pending[i], n);
    var q := Drop(reqs, j) + [r];
    ReplaceWork(reqs, j, r);
    OnlyAt(pending, i, w, reqs, next, laid, j);
    NewRest(pending, pending[i := w], reqs, laid, next, i, j, w, r);
    TagsGone(pending, i, r.userData, laid, next);
    SnocMatched(pending[i := w], Drop(reqs, j), next, r);
    SnocMatched(Drop(pending, i), Drop(reqs, j), next, r);
    if AllOwned(pending, reqs) {
      SameOwners(pending, pending[i := w], reqs, q, i, j);
    }
  }

  /** The new request is the rest of its own write, has a tag below the next one, and no other request has it. */
  lemma NewRest(pending: seq<PendingWrite>, after: seq<PendingWrite>, reqs: seq<Request>, laid: Bytes, next: nat,
                i: nat, j: nat, w: PendingWrite, r: Request)
    requires Matched(pending, reqs, next) && Slices(pending, laid, next) && i < |pending| && j < |reqs|
    requires pending[i].userData == reqs[j].userData == w.userData == r.userData && Rest(w, r) && after == pending[i := w]
    ensures r.userData < next
    ensures forall k | 0 <= k < |after| && after[k].userData == r.userData :: Rest(after[k], r)
    ensures forall k | 0 <= k < |Drop(reqs, j)| :: Drop(reqs, j)[k].userData != r.userData
  {
    hide Rest;
  }

  lemma SnocMatched(pending: seq<PendingWrite>, reqs: seq<Request>, next: nat, r: Request)
    requires Matched(pending, reqs, next) && r.userData < next
    requires forall k | 0 <= k < |reqs| :: reqs[k].userData != r.userData
    requires forall k | 0 <= k < |pending| && pending[k].userData == r.userData :: Rest(pending[k], r)
    ensures Matched(pending, reqs + [r], next)
  {
    hide Rest;
  }

  lemma SameOwners(pending: seq<PendingWrite>, after: seq<PendingWrite>, reqs: seq<Request>, q: seq<Request>, i: nat, j: nat)
    requires i < |pending| == |after| && j < |reqs| && AllOwned(pending, reqs)
    requires forall k | 0 <= k < |pending| :: after[k].userData == pending[k].userData
    requires |q| == |reqs| && q[..|q| - 1] == Drop(reqs, j) && q[|q| - 1].userData == pending[i].userData
    ensures AllOwned(after, q)
  {
    forall k | 0 <= k < |q| ensures Owned(after, q[k]) {
      if k == |q| - 1 {
        assert after[i].userData == q[k].userData;
      } else {
        var r := reqs[if k < j then k else k + 1];
        assert q[k] == q[..|q| - 1][k] == r;
        assert Owned(pending, r);
        var m :| 0 <= m < |pending| && pending[m].userData == r.userData;
        assert after[m].userData == q[k].userData;
      }
    }
  }

  lemma StagedSlices(pending: seq<PendingWrite>, laid: Bytes, next: nat, buf: Bytes)
    requires Slices(pending, laid, next) && buf != []
    ensures Slices(pending + [PendingWrite(buf, 0, |laid|, next)], laid + buf, next + 1) && Slices(pending, laid, next + 1)
  {
    var q := pending + [PendingWrite(buf, 0, |laid|, next)];
    forall k | 0 <= k < |q| ensures q[k].buf == (laid + buf)[q[k].offset..q[k].offset + |q[k].buf|] {
      if k < |pending| {
        assert q[k] == pending[k];
        assert laid[pending[k].offset..pending[k].offset + |pending[k].buf|]
            == (laid + buf)[pending[k].offset..pending[k].offset + |pending[k].buf|];
      } else {
        assert buf == (laid + buf)[|laid|..];
      }
    }
  }

  lemma StagedMatched(pending: seq<PendingWrite>, reqs: seq<Request>, laid: Bytes, next: nat, buf: Bytes)
    requires Matched(pending, reqs, next) && Slices(pending, laid, next)
    ensures var r := Request(next, |laid|, buf);
            && Matched(pending + [PendingWrite(buf, 0, |laid|, next)], reqs + [r], next + 1)
            && Matched(pending, reqs + [r], next + 1)
  {
    var w := PendingWrite(buf, 0, |laid|, next);
    assert Rest(w, Request(next, |laid|, buf));
  }

  lemma StagedOwned(pending: seq<PendingWrite>, reqs: seq<Request>, w: PendingWrite, r: Request)
    requires AllOwned(pending, reqs) && w.userData == r.userData
    ensures AllOwned(pending + [w], reqs + [r])
  {
    forall k | 0 <= k < |reqs + [r]| ensures Owned(pending + [w], (reqs + [r])[k]) {
      if k < |reqs| {
        assert Owned(pending, reqs[k]);
        var m :| 0 <= m < |pending| && pending[m].userData == reqs[k].userData;
        assert (pending + [w])[m].userData == reqs[k].userData;
      } else {
        assert (pending + [w])[|pending|].userData == r.userData;
      }
    }
  }

  lemma StagedFills(pending: seq<PendingWrite>, laid: Bytes, file: Content, buf: Bytes, next: nat, lost: set<nat>)
    requires Filled(pending, laid, file, lost) && Slices(pending, laid, next)
    ensures Filled(pending + [PendingWrite(buf, 0, |laid|, next)], laid + buf, file, lost)
  {
    var q := pending + [PendingWrite(buf, 0, |laid|, next)];
    forall p: nat ensures Awaited(q, p) <==> Awaited(pending, p) || |laid| <= p < |laid + buf| {
      if Awaited(pending, p) {
        var k :| 0 <= k < |pending| && pending[k].offset + pending[k].written <= p < pending[k].offset + |pending[k].buf|;
        assert q[k] == pending[k];
      } else if |laid| <= p < |laid + buf| {
        assert q[|pending|].offset + q[|pending|].written <= p;
      }
    }
    hide Awaited;
  }

  // ---- the writer ---------------------------------------------------------------------------------------------

  datatype Policy = No | EverySec | Always

  const SOFT_FLUSH: nat := 4 * 1024
  const HARD_CAP: nat := 1024 * 1024
  const MAX_PENDING: nat := 64
  const WAIT_RETRIES: nat := 64

  class IoUringAofWriter {
    const ring: Ring
    const policy: Policy
    ghost const initial: Bytes
    var aofBuf: Bytes
    var pending: seq<PendingWrite>
    var aofOffset: nat
    var nextUserData: nat
    var dirty: bool
    var ioFailed: bool
    var stopped: bool
    var open: bool              // the file and the ring
    ghost var laid: Bytes       // the file's bytes as laid out so far, written or not
    ghost var accepted: Bytes   // what Enqueue has put into the buffer: whole frames where it returned true
    ghost var stray: bool       // a failed submit has left its request prepared
    ghost var lost: set<nat>    // positions forgotten by zero-byte completions

    ghost predicate Reliable()
      reads this`stray, this`ioFailed, this`open
    {
      !stray && !ioFailed && open
    }

    ghost predicate Tagged()
      reads this`laid, this`aofOffset, this`pending, this`nextUserData, ring`inflight, ring`staged
    {
      |laid| == aofOffset && Slices(pending, laid, nextUserData) && Matched(pending, ring.All(), nextUserData)
    }

    /** Until something goes wrong, the bytes laid out are in the file or asked for. */
    ghost predicate Covered()
      reads this`stray, this`ioFailed, this`open, this`pending, this`laid, this`dirty, this`lost
      reads ring`inflight, ring`staged, ring`file, ring`unsynced
    {
      Reliable() ==>
        && ring.staged == [] && AllOwned(pending, ring.All()) && Filled(pending, laid, ring.file, lost)
        && (ring.unsynced ==> dirty || Begun(pending) || lost != {})
    }

    /** ... and with what is still buffered they are the accepted frames in order. */
    ghost predicate InOrder()
      reads this`stray, this`ioFailed, this`open, this`laid, this`aofBuf, this`accepted
    {
      Reliable() ==> laid + aofBuf == initial + accepted
    }

    ghost predicate Valid()
      reads this, ring
    {
      Tagged() && Covered() && InOrder()
    }

    constructor (initial: Bytes, policy: Policy)
      ensures Valid() && Reliable() && !stopped && accepted == [] && lost == {} && this.initial == initial && this.policy == policy
      ensures fresh(ring)
    {
      hide Slices, Matched, AllOwned, Filled, Begun;
      this.initial, this.policy := initial, policy;
      ring := new Ring(initial);
      aofBuf, pending, aofOffset, nextUserData := [], [], |initial|, 1;
      dirty, ioFailed, stopped, open := false, false, false, true;
      laid, accepted, stray, lost := initial, [], false, {};
      new;
      assert initial + [] == initial;
      assert ring.All() == [];
      NothingPending(initial);
    }

    method FindPending(userData: nat) returns (idx: int)
      ensures -1 <= idx < |pending| && (idx >= 0 ==> pending[idx].userData == userData)
      ensures idx < 0 ==> forall i | 0 <= i < |pending| :: pending[i].userData != userData
    {
      idx := 0;
      while idx < |pending|
        invariant 0 <= idx <= |pending|
        invariant forall i | 0 <= i < idx :: pending[i].userData != userData
      {
        if pending[idx].userData == userData {
          return;
        }
        idx := idx + 1;
      }
      idx := -1;
    }

    twostate predicate Steady()
      reads this
    {
      && accepted == old(accepted) && stopped == old(stopped) && open == old(open)
      && (old(stray) ==> stray) && (old(ioFailed) ==> ioFailed) && old(lost) <= lost
    }

    /** The writer gives up only if the ring has said no. */
    twostate predicate Blames()
      reads this`ioFailed, ring
    {
      old(ring.refusals) <= ring.refusals && old(ring.empties) <= ring.empties && (ioFailed ==> old(ioFailed) || Refused())
    }

    twostate predicate Refused()
      reads ring
    {
      old(ring.refusals) < ring.refusals
    }

    /** The ring was asked for completions time and again and had none left to give. */
    twostate predicate Starved()
      reads ring
    {
      old(ring.empties) + WAIT_RETRIES <= ring.empties
    }

    /** What a step in between leaves alone. */
    twostate predicate Quiet()
      reads this
    {
      laid == old(laid) && aofBuf == old(aofBuf) && aofOffset == old(aofOffset) && nextUserData == old(nextUserData) && Steady()
    }

    method PeekCompletions()
      requires Valid()
      modifies this, ring
      ensures Valid() && Quiet() && Blames() && ring.empties == old(ring.empties) + 1
    {
      hide Slices, Matched, AllOwned, Filled, Begun, Work, Rest, Put, Owned, InOrder, Unwritten;
      while true
        invariant Valid() && Quiet() && Blames() && ring.empties == old(ring.empties)
        decreases Work(ring.All())
      {
        ghost var reqs, file, unsynced, refusals := ring.All(), ring.file, ring.unsynced, ring.refusals;
        ghost var flying, staged := ring.inflight, ring.staged;
        var c;
        ghost var j;
        c, j := ring.TakeCqe();
        if c.None? {
          break;
        }
        assert reqs[j] == flying[j];
        assert ring.All() == Drop(reqs, j);
        OnCqe(c.value, reqs, j, file, unsynced, refusals);
      }
    }

    /** One completion: an error, nothing, a part, or all of the rest of a pending write. */
    method OnCqe(c: Cqe, ghost reqs: seq<Request>, ghost j: nat, ghost file: Content, ghost unsynced: bool, ghost refusals: nat)
      requires |laid| == aofOffset && Slices(pending, laid, nextUserData) && Matched(pending, reqs, nextUserData) && InOrder()
      requires j < |reqs| && ring.All() == Drop(reqs, j) && c.userData == reqs[j].userData && c.res <= |reqs[j].data|
      requires ring.file == if c.res > 0 then Put(file, reqs[j].offset, reqs[j].data[..c.res]) else file
      requires ring.unsynced == (unsynced || c.res > 0)
      requires refusals <= ring.refusals && (c.res < 0 ==> refusals < ring.refusals)
      requires Reliable() ==> ring.staged == [] && AllOwned(pending, reqs) && Filled(pending, laid, file, lost)
                              && (unsynced ==> dirty || Begun(pending) || lost != {})
      modifies this, ring
      ensures Valid() && Quiet() && refusals <= ring.refusals && ring.empties == old(ring.empties)
      ensures ioFailed ==> old(ioFailed) || refusals < ring.refusals
      ensures Work(ring.All()) < Work(reqs)
    {
      hide Slices, Matched, AllOwned, Filled, Begun, Rest, Put, Work, Owned;
      WorkWithout(reqs, j);
      RequestDropped(pending, reqs, nextUserData, j);
      var idx := FindPending(c.userData);
      if idx < 0 {
        Unowned(pending, reqs, j);
        return;
      }
      BothDropped(pending, reqs, nextUserData, laid, idx, j);
      DropSlices(pending, laid, nextUserData, idx);
      if c.res < 0 {
        ioFailed := true;
        pending := Drop(pending, idx);
        return;
      }
      if c.res == 0 {
        if Reliable() {
          Forgotten(pending, laid, nextUserData, idx, file, lost);
          lost := lost + Unwritten(pending[idx]);
        }
        pending := Drop(pending, idx);
        return;
      }
      var w := pending[idx];
      RestIs(pending, reqs, laid, nextUserData, idx, j);
      if c.res < |w.buf| - w.written {
        Resubmit(idx, c.res, reqs, j, file);
        return;
      }
      dirty := true;
      if Reliable() {
        Completed(pending, laid, nextUserData, idx, reqs[j], file, lost);
        assert reqs[j].data[..c.res] == reqs[j].data;
      }
      pending := Drop(pending, idx);
    }

    /** A short write: the rest is asked for again. */
    method Resubmit(idx: nat, n: nat, ghost reqs: seq<Request>, ghost j: nat, ghost file: Content)
      requires |laid| == aofOffset && Slices(pending, laid, nextUserData) && Matched(pending, reqs, nextUserData) && InOrder()
      requires j < |reqs| && ring.All() == Drop(reqs, j) && idx < |pending| && pending[idx].userData == reqs[j].userData
      requires 0 < n < |reqs[j].data| && Rest(pending[idx], reqs[j])
      requires ring.file == Put(file, reqs[j].offset, reqs[j].data[..n])
      requires Reliable() ==> ring.staged == [] && AllOwned(pending, reqs) && Filled(pending, laid, file, lost)
      modifies this, ring
      ensures Valid() && Quiet() && ring.empties == old(ring.empties) && Blames()
      ensures Work(ring.All()) < Work(reqs)
    {
      hide Slices, Matched, AllOwned, Filled, Put, Work;
      Resubmitted(pending, reqs, laid, nextUserData, idx, j, n);
      WorkWithout(reqs, j);
      BothDropped(pending, reqs, nextUserData, laid, idx, j);
      DropSlices(pending, laid, nextUserData, idx);
      ShorterSlices(pending, laid, nextUserData, idx, n);
      if Reliable() {
        Shortened(pending, laid, nextUserData, idx, reqs[j], n, file, lost);
      }
      var again := Again(pending[idx], n);
      ghost var dropped := Drop(pending, idx);
      pending := pending[idx := pending[idx].(written := pending[idx].written + n)];
      assert Drop(pending, idx) == dropped;
      assert Begun(pending) by { assert pending[idx].written > 0; }
      var sent := Send(again);
      if !sent {
        ioFailed := true;
        pending := Drop(pending, idx);
      }
    }

    /** Prepares and submits a request; if that fails, the writer has failed for good. */
    method Send(r: Request) returns (ok: bool)
      modifies ring`staged, ring`inflight, ring`refusals
      ensures Refused() || (ok && ring.refusals == old(ring.refusals))
      ensures ok ==> ring.staged == [] && ring.All() == old(ring.All()) + [r]
      ensures !ok ==> ring.All() == old(ring.All()) || ring.All() == old(ring.All()) + [r]
    {
      ghost var reqs := ring.All();
      ok := ring.GetSqe();
      if !ok {
        var flushed := ring.Submit();
        ok := ring.GetSqe();
      }
      if !ok {
        return;
      }
      ring.PrepWrite(r);
      assert ring.All() == reqs + [r];
      ok := ring.Submit();
    }

    method WaitForPendingSlot() returns (ok: bool)
      requires Valid()
      modifies this, ring
      ensures Valid() && Quiet() && Blames()
      ensures if ok then |pending| < MAX_PENDING else Refused() || (Starved() && |pending| >= MAX_PENDING)
    {
      hide Tagged, Covered;
      var i := 0;
      while i < WAIT_RETRIES
        invariant 0 <= i <= WAIT_RETRIES && Valid() && Quiet() && Blames() && (i > 0 ==> |pending| >= MAX_PENDING)
        invariant old(ring.empties) + i <= ring.empties
      {
        PeekCompletions();
        if |pending| < MAX_PENDING {
          return true;
        }
        var waited := ring.WaitCqe();
        if !waited {
          return false;
        }
        PeekCompletions();
        if |pending| < MAX_PENDING {
          return true;
        }
        i := i + 1;
      }
      return false;
    }

    method DrainPending(maxRetries: nat) returns (ok: bool)
      requires Valid()
      modifies this, ring
      ensures Valid() && Quiet() && Blames() && (ok <==> pending == [])
      ensures !ok ==> Refused() || old(ring.empties) + maxRetries <= ring.empties
    {
      hide Tagged, Covered;
      var retries := 0;
      while pending != [] && retries < maxRetries
        invariant Valid() && Quiet() && Blames() && retries <= maxRetries && old(ring.empties) + retries <= ring.empties
        decreases maxRetries - retries
      {
        PeekCompletions();
        retries := retries + 1;
        if pending != [] {
          var waited := ring.WaitCqe();
          if !waited {
            return false;
          }
          PeekCompletions();
        }
      }
      return pending == [];
    }

    /** Lays the buffered bytes out and asks for them to be written. A failed submit puts them back. */
    method FlushBuffer() returns (ok: bool)
      requires Valid()
      modifies this, ring
      ensures Valid() && Steady() && Blames() && laid + aofBuf == old(laid + aofBuf)
      ensures (ok && open ==> aofBuf == []) && (aofBuf == [] || aofBuf == old(aofBuf))
      ensures !ok ==> old(ioFailed) || Refused() || Starved()
      ensures old(aofBuf) == [] ==> ok && ring.refusals == old(ring.refusals) && ring.All() == old(ring.All()) && pending == old(pending)
    {
      hide Slices, Matched, AllOwned, Filled, Begun;
      if !open || aofBuf == [] {
        return aofBuf == [] || !ioFailed;
      }
      if ioFailed {
        return false;
      }
      if |pending| >= MAX_PENDING {
        var slot := WaitForPendingSlot();
        if !slot {
          return false;
        }
      }
      var sqe := GetRequest();
      if !sqe {
        return false;
      }
      ok := SubmitBuffer();
    }

    method GetRequest() returns (ok: bool)
      requires Valid()
      modifies this, ring
      ensures Valid() && Quiet() && Blames() && (!ok ==> Refused())
    {
      hide Slices, Matched, AllOwned, Filled, Begun;
      ok := ring.GetSqe();
      if !ok {
        var submitted := ring.Submit();
        if !submitted {
          return false;
        }
        ok := ring.GetSqe();
        if !ok {
          var slot := WaitForPendingSlot();
          if !slot {
            return false;
          }
          ok := ring.GetSqe();
        }
      }
    }

    /** A request goes to the ring; if it cannot be submitted, it stays there without an owner. */
    method Stage(r: Request) returns (ok: bool)
      modifies this`nextUserData, this`stray, ring`staged, ring`inflight, ring`refusals
      ensures old(ring.refusals) <= ring.refusals && (!ok ==> Refused())
      ensures ring.All() == old(ring.All()) + [r] && nextUserData == old(nextUserData) + 1
      ensures stray == (old(stray) || !ok) && (ok ==> ring.staged == [])
    {
      nextUserData := nextUserData + 1;
      ring.PrepWrite(r);
      assert ring.All() == old(ring.All()) + [r];
      ok := ring.Submit();
      stray := stray || !ok;
    }

    method SubmitBuffer() returns (ok: bool)
      requires Valid() && aofBuf != []
      modifies this, ring
      ensures Valid() && Steady() && Blames() && laid + aofBuf == old(laid + aofBuf)
      ensures if ok then aofBuf == [] && |pending| == |old(pending)| + 1 else aofBuf == old(aofBuf) && Refused()
    {
      hide Slices, Matched, AllOwned, Filled, Begun;
      ghost var reqs := ring.All();
      StagedSlices(pending, laid, nextUserData, aofBuf);
      StagedMatched(pending, reqs, laid, nextUserData, aofBuf);
      var w := PendingWrite(aofBuf, 0, aofOffset, nextUserData);
      var r := Request(nextUserData, aofOffset, aofBuf);
      if Reliable() {
        StagedOwned(pending, reqs, w, r);
        StagedFills(pending, laid, ring.file, aofBuf, nextUserData, lost);
      }
      BegunMore(pending, w);
      ok := Stage(r);
      if !ok {
        return;
      }
      pending := pending + [w];
      aofOffset := aofOffset + |aofBuf|;
      laid := laid + aofBuf;
      aofBuf := [];
      assert laid + [] == laid;
    }

    /** With policy `No`, or nothing known to be written since the last sync, there is nothing to do:
        a frame accepted under `Always` need not be on disk yet. */
    method SyncFile() returns (ok: bool)
      requires Valid()
      modifies this`dirty, ring`unsynced, ring`refusals
      ensures Valid() && Blames() && (if ok then policy == No || !open || !dirty else Refused())
      ensures policy == No || !open || !old(dirty) ==> ok && ring.unsynced == old(ring.unsynced) && dirty == old(dirty)
      ensures ok && policy != No && Reliable() && pending == [] && lost == {} ==> !ring.unsynced
    {
      hide Slices, Matched, AllOwned, Filled;
      if policy == No {
        return true;
      }
      if !open || !dirty {
        return true;
      }
      ok := ring.Sync();
      if ok {
        dirty := false;
      }
    }

    /** With no submit failed, a true Flush means that nothing is buffered or awaited and the
        file is its initial content and the accepted frames in order, but for the lost positions, whatever
        the order and the pieces in which writes completed. So it is all of them if and only if no
        zero-byte completion ever came, and then all of it is synced unless the policy is `No`. */
    method Flush() returns (ok: bool)
      requires Valid()
      modifies this, ring
      ensures Valid() && Steady() && laid + aofBuf == old(laid + aofBuf)
      ensures old(ring.refusals) <= ring.refusals && old(ring.empties) <= ring.empties
      ensures !ok ==> old(ioFailed) || Refused() || Starved()
      ensures ok && open && !stray ==>
                && aofBuf == [] && pending == [] && ring.file == ContentOf(initial + accepted) - lost
                && (ring.file == ContentOf(initial + accepted) <==> lost == {})
                && (policy != No && lost == {} ==> !ring.unsynced)
    {
      hide Slices, Matched, AllOwned;
      if ioFailed {
        return false;
      }
      if aofBuf != [] {
        var flushed := FlushBuffer();
        if !flushed {
          return false;
        }
      }
      var drained := DrainPending(200);
      if !drained {
        ioFailed := true;
        return false;
      }
      if policy != No {
        var synced := SyncFile();
        if !synced {
          ioFailed := true;
          return false;
        }
      }
      if Reliable() {
        assert laid + aofBuf == laid;
        AllFilled(laid, ring.file, lost);
      }
      return !ioFailed;
    }

    /** True means accepted, not written, let alone synced. False does not mean that no part of the frame is:
        a prefix of it, or all of it, may have gone into the buffer and reach the file. */
    method Enqueue(frame: Bytes) returns (ok: bool)
      requires Valid()
      modifies this, ring
      ensures Valid() && stopped == old(stopped) && open == old(open) && (old(stray) ==> stray) && (old(ioFailed) ==> ioFailed) && old(lost) <= lost && Blames()
      ensures old(accepted) <= accepted <= old(accepted) + frame && (ok ==> accepted == old(accepted) + frame)
      ensures old(stopped) || old(ioFailed) || frame == [] ==> !ok && accepted == old(accepted)
      ensures open && |old(aofBuf)| <= HARD_CAP ==> |aofBuf| <= HARD_CAP
      ensures ok && open && (policy == Always || |frame| > HARD_CAP) ==> aofBuf == []
      ensures ok && open && policy == Always ==> !dirty
      ensures !ok ==> old(stopped) || old(ioFailed) || frame == [] || Refused() || Starved() || !open
      ensures !old(stopped) && !old(ioFailed) && frame != [] && policy != Always && |old(aofBuf)| + |frame| < SOFT_FLUSH ==>
                ok && aofBuf == old(aofBuf) + frame && laid == old(laid) && pending == old(pending) && ring.All() == old(ring.All())
    {
      hide Tagged, Covered;
      if stopped || ioFailed || frame == [] {
        return false;
      }
      if |frame| > HARD_CAP {
        ok := EnqueueLarge(frame);
      } else {
        ok := EnqueueSmall(frame);
      }
      if ok && policy == Always {
        ok := SyncFile();
      }
    }

    /** A piece of a frame joins the buffer. */
    method Buffer(piece: Bytes)
      requires Valid()
      modifies this`aofBuf, this`accepted
      ensures Valid() && aofBuf == old(aofBuf) + piece && accepted == old(accepted) + piece
    {
      hide Slices, Matched, AllOwned, Filled, Begun;
      assert laid + (aofBuf + piece) == (laid + aofBuf) + piece;
      assert initial + (accepted + piece) == (initial + accepted) + piece;
      aofBuf := aofBuf + piece;
      accepted := accepted + piece;
    }

    /** A frame over the cap goes in pieces, each flushed before the next. */
    method EnqueueLarge(frame: Bytes) returns (ok: bool)
      requires Valid() && |frame| > HARD_CAP
      modifies this, ring
      ensures ok && open ==> aofBuf == []
      ensures Valid() && stopped == old(stopped) && open == old(open) && (old(stray) ==> stray) && (old(ioFailed) ==> ioFailed) && old(lost) <= lost && Blames()
      ensures old(accepted) <= accepted <= old(accepted) + frame && (ok ==> accepted == old(accepted) + frame)
      ensures !ok ==> old(ioFailed) || Refused() || Starved() || !open
      ensures open && |old(aofBuf)| <= HARD_CAP ==> |aofBuf| <= HARD_CAP
    {
      hide Slices, Matched, AllOwned, Filled, Begun, Tagged, Covered, InOrder;
      if aofBuf != [] {
        var flushed := FlushBuffer();
        if !flushed {
          return false;
        }
      }
      var off := 0;
      while off < |frame|
        invariant 0 <= off <= |frame| && Valid()
        invariant stopped == old(stopped) && open == old(open)
        invariant (old(stray) ==> stray) && (old(ioFailed) ==> ioFailed) && old(lost) <= lost && Blames()
        invariant accepted == old(accepted) + frame[..off] && (open ==> aofBuf == [])
      {
        var n := if SOFT_FLUSH < |frame| - off then SOFT_FLUSH else |frame| - off;
        Buffer(frame[off..off + n]);
        assert frame[..off] + frame[off..off + n] == frame[..off + n];
        off := off + n;
        var flushed := FlushBuffer();
        if !flushed {
          return false;
        }
      }
      assert frame[..off] == frame;
      return true;
    }

    method EnqueueSmall(frame: Bytes) returns (ok: bool)
      requires Valid() && |frame| <= HARD_CAP
      modifies this, ring
      ensures Valid() && stopped == old(stopped) && open == old(open) && (old(stray) ==> stray) && (old(ioFailed) ==> ioFailed) && old(lost) <= lost && Blames()
      ensures old(accepted) <= accepted <= old(accepted) + frame && (ok ==> accepted == old(accepted) + frame)
      ensures !ok ==> old(ioFailed) || Refused() || Starved() || !open
      ensures open && |old(aofBuf)| <= HARD_CAP ==> |aofBuf| <= HARD_CAP
      ensures ok && open && policy == Always ==> aofBuf == []
      ensures policy != Always && |old(aofBuf)| + |frame| < SOFT_FLUSH ==>
                ok && aofBuf == old(aofBuf) + frame && laid == old(laid) && pending == old(pending) && ring.All() == old(ring.All())
    {
      hide Slices, Matched, AllOwned, Filled, Begun, Tagged, Covered, InOrder;
      if |aofBuf| + |frame| > HARD_CAP {
        var room := MakeRoom(|frame|);
        if !room {
          return false;
        }
      }
      Buffer(frame);
      if |aofBuf| >= SOFT_FLUSH {
        var flushed := FlushBuffer();
        if !flushed {
          return false;
        }
      }
      if policy == Always && aofBuf != [] {
        var flushed := FlushBuffer();
        if !flushed {
          return false;
        }
      }
      return true;
    }

    /** Back-pressure: the buffer would grow past the cap. */
    method MakeRoom(need: nat) returns (ok: bool)
      requires Valid()
      modifies this, ring
      ensures Valid() && Steady() && Blames() && (!ok ==> old(ioFailed) || Refused() || Starved() || !open || need > HARD_CAP)
      ensures (aofBuf == [] || aofBuf == old(aofBuf)) && (ok ==> |aofBuf| + need <= HARD_CAP)
    {
      hide Slices, Matched, AllOwned, Filled, Begun, Tagged, Covered, InOrder;
      var flushed := FlushBuffer();
      if !flushed {
        return false;
      }
      if |aofBuf| + need > HARD_CAP {
        var slot := WaitForPendingSlot();
        if !slot {
          return false;
        }
        flushed := FlushBuffer();
        if !flushed {
          return false;
        }
        if |aofBuf| + need > HARD_CAP {
          return false;
        }
      }
      return true;
    }

    /** The reactor is idle; the timers are the caller's. */
    method Poll(flushDue: bool, syncDue: bool)
      requires Valid()
      modifies this, ring
      ensures Valid() && Steady() && Blames() && laid + aofBuf == old(laid + aofBuf)
      ensures !old(stopped) && !old(ioFailed) && open ==>
                && old(ring.empties) < ring.empties
                && (flushDue ==> aofBuf == [] || Refused() || Starved())
                && (policy == EverySec && syncDue ==> !dirty || Refused())
                && (!flushDue && !syncDue ==> aofBuf == old(aofBuf))
    {
      hide Slices, Matched, AllOwned, Filled, Begun, Work, Rest, Put, Owned, Unwritten;
      if stopped || ioFailed || !open {
        return;
      }
      PeekCompletions();
      if aofBuf != [] && flushDue {
        var flushed := FlushBuffer();
      }
      if policy == EverySec && dirty && syncDue {
        if aofBuf != [] {
          var flushed := FlushBuffer();
        }
        if pending != [] {
          var drained := DrainPending(50);
        }
        if dirty {
          var synced := SyncFile();
          if !synced {
            ioFailed := true;
          }
        }
      }
    }

    /** The last flush's outcome is dropped: what it could not write is lost, and a later Flush of the
        closed writer says nothing about it. */
    method Stop() returns (ghost flushed: bool)
      requires Valid()
      modifies this, ring
      ensures Valid() && stopped && accepted == old(accepted) && laid + aofBuf == old(laid + aofBuf)
      ensures old(ring.refusals) <= ring.refusals && old(ring.empties) <= ring.empties
      ensures if old(stopped) then !flushed && ring.All() == old(ring.All()) && open == old(open) else !open && pending == []
      ensures !old(stopped) && !flushed ==> old(ioFailed) || Refused() || Starved()
      ensures flushed && old(open) && !stray ==>
                && aofBuf == [] && ring.file == ContentOf(initial + accepted) - lost
                && (policy != No && lost == {} ==> !ring.unsynced)
    {
      hide Slices, Matched, AllOwned, Filled, Begun;
      if stopped {
        return false;
      }
      stopped := true;
      var ok := Flush();
      flushed := ok;
      open := false;
      NoTags(laid, nextUserData, pending, ring.All());
      pending := [];
    }
  }

  lemma NothingPending(laid: Bytes)
    ensures Slices([], laid, 1) && Matched([], [], 1) && AllOwned([], []) && Filled([], laid, ContentOf(laid), {})
  {}

  lemma BegunMore(pending: seq<PendingWrite>, w: PendingWrite)
    ensures Begun(pending) ==> Begun(pending + [w])
  {
    if Begun(pending) {
      var i :| 0 <= i < |pending| && pending[i].written > 0;
      assert (pending + [w])[i] == pending[i];
    }
  }

  lemma AllFilled(laid: Bytes, file: Content, lost: set<nat>)
    requires Filled([], laid, file, lost)
    ensures file == ContentOf(laid) - lost && (file == ContentOf(laid) <==> lost == {})
  {
    forall p: nat ensures !Awaited([], p) {}
    assert file == ContentOf(laid) - lost;
    if lost != {} {
      var p :| p in lost;
      assert p in ContentOf(laid) && p !in file;
    }
  }

  lemma NoTags(laid: Bytes, next: nat, pending: seq<PendingWrite>, reqs: seq<Request>)
    requires Matched(pending, reqs, next)
    ensures Slices([], laid, next) && Matched([], reqs, next)
  {}

  lemma Unowned(pending: seq<PendingWrite>, reqs: seq<Request>, j: nat)
    requires j < |reqs| && forall i | 0 <= i < |pending| :: pending[i].userData != reqs[j].userData
    ensures !AllOwned(pending, reqs)
  {
    assert !Owned(pending, reqs[j]);
  }

  lemma RestIs(pending: seq<PendingWrite>, reqs: seq<Request>, laid: Bytes, next: nat, i: nat, j: nat)
    requires Matched(pending, reqs, next) && Slices(pending, laid, next)
    requires i < |pending| && j < |reqs| && pending[i].userData == reqs[j].userData
    ensures Rest(pending[i], reqs[j]) && |reqs[j].data| == |pending[i].buf| - pending[i].written
  {}
}
