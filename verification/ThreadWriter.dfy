/** The thread AOF writer: any number of client threads enqueue and flush while one background
    thread pops, writes and syncs. Every atomic action is a step; the steps interleave freely. */
module ThreadWriters {
  import opened ByteStrings

  // ---- BlockingQueue as monitor steps --------------------------------------------------------------------

  /** What each operation does once its wait is over, with the mutex held. */
  class BlockingQueue<T> {
    const capacity: nat
    var cancelled: bool
    var queue: seq<T>

    ghost predicate Valid()
      reads this
    {
      0 < capacity && |queue| <= capacity
    }

    constructor (capacity: nat)
      ensures Valid() && queue == [] && !cancelled
    {
      this.capacity := if capacity < 1 then 1 else capacity;
      cancelled, queue := false, [];
    }

    method Push(value: T) returns (ok: bool)
      requires Valid() && (|queue| < capacity || cancelled)
      modifies this`queue
      ensures Valid() && ok == !cancelled
      ensures queue == if ok then old(queue) + [value] else old(queue)
    {
      if cancelled {
        return false;
      }
      queue := queue + [value];
      return true;
    }

    method Pop() returns (value: Option<T>)
      requires Valid() && (queue != [] || cancelled)
      modifies this`queue
      ensures Valid()
      ensures if old(queue) == [] then value == None && queue == []
              else value == Some(old(queue)[0]) && queue == old(queue)[1..]
    {
      if queue == [] {
        return None;
      }
      value := Some(queue[0]);
      queue := queue[1..];
    }

    /** Nothing: the wait timed out, or the queue is cancelled and empty. The caller cannot tell which. */
    method PopWaitFor(timedOut: bool) returns (value: Option<T>)
      requires Valid() && (timedOut ==> queue == [] && !cancelled) && (!timedOut ==> queue != [] || cancelled)
      modifies this`queue
      ensures Valid()
      ensures if old(queue) == [] then value == None && queue == []
              else value == Some(old(queue)[0]) && queue == old(queue)[1..]
    {
      if timedOut {
        return None;
      }
      value := Pop();
    }

    method Cancel()
      modifies this`cancelled
      ensures cancelled
    {
      cancelled := true;
    }
  }

  // ---- states -----------------------------------------------------------------------------------------------

  datatype Policy = No | EverySec | Always

  const MAX_BATCH: nat := 32

  /** Where the background thread is. From Writing to Purged it holds the file's mutex, except in Counting. */
  datatype Flusher =
    | Waiting                        // in PopWaitFor
    | Empty                          // got nothing, has not read `cancelled`
    | Ticking                        // got nothing in time; a periodic sync is next
    | Collecting(batch: seq<Bytes>)
    | Deciding(batch: seq<Bytes>)    // reads io_failed_
    | Locking(batch: seq<Bytes>)     // waits for the file's mutex
    | Writing(batch: seq<Bytes>)
    | Syncing(n: nat)                // the batch of n is written
    | Checking(n: nat)               // reads io_failed_ again
    | Counting(n: nat)               // takes n off pending_, then goes on
    | Failing(n: nat)                // io_failed_ is set; takes n off pending_
    | Cancelling
    | Purging                        // pops what is left
    | Purged                         // popped one, takes it off pending_
    | Exited

  /** Where a client thread is. `goal` is how many frames had been accepted when it called Flush. */
  datatype Client =
    | Out
    | Entering(frame: Bytes)         // passed the checks of Enqueue
    | Pushing(frame: Bytes)          // counted in pending_, in Push
    | Undoing                        // Push refused, takes itself off pending_
    | Draining(goal: nat)            // in Flush, waits for pending_ == 0
    | Judging(goal: nat)             // saw pending_ == 0, reads io_failed_
    | Locked(goal: nat)              // the sync of Flush is next
    | Answering(goal: nat)           // reads io_failed_ once more
    | Answered(goal: nat, ok: bool)
    | Joining                        // in Stop, the queue is cancelled, waits for the background thread

  datatype Writer = Writer(
    policy: Policy, cap: nat,
    queue: seq<Bytes>, cancelled: bool, pending: nat,
    ioFailed: bool, stopped: bool, dirty: bool,
    stopper: Option<nat>,   // the thread in the Flush of Stop
    closed: bool,           // Stop has closed the file
    flusher: Flusher, clients: map<nat, Client>,
    accepted: seq<Bytes>,   // frames pushed, in order: Enqueue returns true for exactly these
    written: seq<Bytes>,    // frames written and flushed to the file, in order
    synced: nat,            // how many of them are synced
    dropped: bool)          // some popped frame was given up

  function Hand(f: Flusher): nat {
    match f
    case Collecting(batch) => |batch|
    case Deciding(batch) => |batch|
    case Locking(batch) => |batch|
    case Writing(batch) => |batch|
    case Syncing(n) => n
    case Checking(n) => n
    case Counting(n) => n
    case Failing(n) => n
    case Purged => 1
    case _ => 0
  }

  function Unwritten(f: Flusher): seq<Bytes> {
    match f
    case Collecting(batch) => batch
    case Deciding(batch) => batch
    case Locking(batch) => batch
    case Writing(batch) => batch
    case _ => []
  }

  predicate HoldsFile(f: Flusher) {
    f.Writing? || f.Syncing? || f.Checking? || f.Failing? || f.Cancelling? || f.Purging? || f.Purged?
  }

  function At(w: Writer, id: nat): Client { if id in w.clients then w.clients[id] else Out }

  /** DecPendingN saturates at zero. */
  function Less(pending: nat, n: nat): nat { if n >= pending then 0 else pending - n }

  // ---- steps --------------------------------------------------------------------------------------------------

  /** A client's next action. */
  datatype Act =
    | Check(frame: Bytes)   // Enqueue reads three flags that only ever rise, so one reading will do
    | Count
    | Push
    | Undo
    | CallFlush
    | Drained
    | Judge
    | SyncNow(ok: bool)
    | Answer
    | Return
    | CallStop
    | CancelQueue           // Stop goes on once its Flush has returned
    | Join

  /** An action of the background thread. */
  datatype Move =
    | PopFirst
    | TimeOut
    | ReadCancelled
    | Tick(ok: bool)
    | PopMore
    | NoMore
    | Decide
    | Open(ok: bool)
    | WriteBatch(ok: bool)
    | SyncBatch(due: bool, ok: bool)
    | CheckFailed
    | TakeOff
    | CancelAll
    | Purge
    | Exit

  datatype Event = Does(id: nat, act: Act) | Background(move: Move)

  predicate Ready(w: Writer, id: nat, c: Client, act: Act) {
    match act
    case Check(_) => c == Out
    case Count => c.Entering?
    case Push => c.Pushing? && (|w.queue| < w.cap || w.cancelled)
    case Undo => c.Undoing?
    case CallFlush => c == Out
    case Drained => c.Draining? && w.pending == 0
    case Judge => c.Judging?
    case SyncNow(_) => c.Locked? && !HoldsFile(w.flusher)
    case Answer => c.Answering?
    case Return => c.Answered? && w.stopper != Some(id)
    case CallStop => c == Out
    case CancelQueue => c.Answered? && w.stopper == Some(id)
    case Join => c.Joining? && w.flusher.Exited?
  }

  predicate CanMove(w: Writer, move: Move) {
    match move
    case PopFirst => w.flusher.Waiting? && w.queue != []
    case TimeOut => w.flusher.Waiting? && w.queue == []
    case ReadCancelled => w.flusher.Empty?
    case Tick(_) => w.flusher.Ticking?
    case PopMore => w.flusher.Collecting? && |w.flusher.batch| < MAX_BATCH && w.queue != []
    case NoMore => w.flusher.Collecting?
    case Decide => w.flusher.Deciding?
    case Open(_) => w.flusher.Locking?
    case WriteBatch(_) => w.flusher.Writing?
    case SyncBatch(_, _) => w.flusher.Syncing?
    case CheckFailed => w.flusher.Checking?
    case TakeOff => w.flusher.Counting? || w.flusher.Failing? || w.flusher.Purged?
    case CancelAll => w.flusher.Cancelling?
    case Purge => w.flusher.Purging? && w.queue != []
    case Exit => w.flusher.Purging? && w.queue == []
  }

  predicate Enabled(w: Writer, e: Event) {
    match e
    case Does(id, act) => Ready(w, id, At(w, id), act)
    case Background(move) => CanMove(w, move)
  }

  /** SyncFile, with the mutex held. */
  function Sync(w: Writer, ok: bool): Writer {
    if w.policy == No || w.closed || !w.dirty then w
    else if ok then w.(dirty := false, synced := |w.written|)
    else w.(ioFailed := true)
  }

  /** A client's action: where it is afterwards, and the shared state. */
  function ActOf(w: Writer, id: nat, c: Client, act: Act): (Client, Writer)
    requires Ready(w, id, c, act)
  {
    match act
    case Check(frame) => (if w.stopped || w.ioFailed || w.cancelled then Out else Entering(frame), w)
    case Count => (Pushing(c.frame), w.(pending := w.pending + 1))
    case Push =>
      if w.cancelled then (Undoing, w)
      else (Out, w.(queue := w.queue + [c.frame], accepted := w.accepted + [c.frame]))
    case Undo => (Out, w.(pending := Less(w.pending, 1)))
    case CallFlush => (Draining(|w.accepted|), w)
    case Drained => (Judging(c.goal), w)
    case Judge => (if w.ioFailed then Answered(c.goal, false) else if w.policy == No then Answering(c.goal) else Locked(c.goal), w)
    case SyncNow(ok) => (if !w.closed && w.dirty && !ok then Answered(c.goal, false) else Answering(c.goal), Sync(w, ok))
    case Answer => (Answered(c.goal, !w.ioFailed), w)
    case Return => (Out, w)
    case CallStop =>
      if w.stopped then (Out, w) else (Draining(|w.accepted|), w.(stopped := true, stopper := Some(id)))
    case CancelQueue => (Joining, w.(cancelled := true, stopper := None))
    case Join => (Out, w.(closed := true))
  }

  function ClientStep(w: Writer, id: nat, act: Act): Writer
    requires Ready(w, id, At(w, id), act)
  {
    var (c, t) := ActOf(w, id, At(w, id), act);
    t.(clients := w.clients[id := c])
  }

  function FlusherStep(w: Writer, move: Move): Writer
    requires CanMove(w, move)
  {
    match move
    case PopFirst => w.(flusher := Collecting([w.queue[0]]), queue := w.queue[1..])
    case TimeOut => w.(flusher := Empty)
    case ReadCancelled => w.(flusher := if w.cancelled then Exited else if w.policy == EverySec then Ticking else Waiting)
    case Tick(ok) =>
      if w.ioFailed || !w.dirty || ok then (if w.ioFailed then w else Sync(w, true)).(flusher := Waiting)
      else Sync(w, false).(flusher := Waiting, cancelled := true)
    case PopMore => w.(flusher := Collecting(w.flusher.batch + [w.queue[0]]), queue := w.queue[1..])
    case NoMore => w.(flusher := Deciding(w.flusher.batch))
    case Decide =>
      if w.ioFailed then w.(flusher := Counting(|w.flusher.batch|), dropped := true)
      else w.(flusher := Locking(w.flusher.batch))
    case Open(ok) =>
      if ok then w.(flusher := Writing(w.flusher.batch)) else GiveUp(w)
    case WriteBatch(ok) =>
      if ok && forall i | 0 <= i < |w.flusher.batch| :: w.flusher.batch[i] != []
      then w.(flusher := Syncing(|w.flusher.batch|), written := w.written + w.flusher.batch, dirty := true)
      else GiveUp(w)
    case SyncBatch(due, ok) =>
      (if w.policy == Always || (w.policy == EverySec && due) then Sync(w, ok) else w).(flusher := Checking(w.flusher.n))
    case CheckFailed => w.(flusher := if w.ioFailed then Failing(w.flusher.n) else Counting(w.flusher.n))
    case TakeOff =>
      w.(pending := Less(w.pending, Hand(w.flusher)),
         flusher := if w.flusher.Counting? then Waiting else if w.flusher.Failing? then Cancelling else Purging)
    case CancelAll => w.(flusher := Purging, cancelled := true)
    case Purge => w.(flusher := Purged, queue := w.queue[1..], dropped := true)
    case Exit => w.(flusher := Exited)
  }

  /** The batch in hand is not written. */
  function GiveUp(w: Writer): Writer {
    w.(flusher := Failing(Hand(w.flusher)), ioFailed := true, dropped := true)
  }

  function Step(w: Writer, e: Event): Writer
    requires Enabled(w, e)
  {
    match e
    case Does(id, act) => ClientStep(w, id, act)
    case Background(move) => FlusherStep(w, move)
  }

  // ---- what every step keeps --------------------------------------------------------------------------------------

  predicate Counted(c: Client) { c.Pushing? || c.Undoing? }

  /** Threads counted in pending_ whose frame is not in the queue (yet, or at all). */
  function InPush(clients: map<nat, Client>): set<nat> { set id | id in clients && Counted(clients[id]) }

  ghost predicate CountOk(w: Writer) {
    w.pending == |w.queue| + Hand(w.flusher) + |InPush(w.clients)|
  }

  /** Until a frame is given up: written, in hand, queued are the accepted frames in order. Once one
      has been, nothing more is written. */
  ghost predicate OrderOk(w: Writer) {
    && (w.dropped ==> w.ioFailed && w.written <= w.accepted && !w.flusher.Locking? && !w.flusher.Writing?)
    && (!w.dropped ==> w.written + Unwritten(w.flusher) + w.queue == w.accepted)
    && (w.flusher.Failing? || w.flusher.Cancelling? || w.flusher.Purging? || w.flusher.Purged? ==> w.ioFailed)
  }

  ghost predicate SyncOk(w: Writer) {
    && w.synced <= |w.written|
    && (w.dirty <==> w.synced < |w.written|)
    && (HasBatch(w.flusher) ==> w.flusher.batch != []) && Hand(w.flusher) <= MAX_BATCH
    && (w.policy == Always && w.dirty && !w.ioFailed ==> w.flusher.Syncing?)
  }

  predicate HasBatch(f: Flusher) { f.Collecting? || f.Deciding? || f.Locking? || f.Writing? }

  /** The background thread stops only with the queue cancelled, and the file is closed after that. */
  ghost predicate HaltOk(w: Writer) {
    && (w.flusher.Purging? || w.flusher.Purged? || w.flusher.Exited? ==> w.cancelled)
    && (w.closed ==> w.flusher.Exited?) && (w.flusher.Ticking? ==> w.policy == EverySec)
  }

  /** The file was closed with bytes that were never synced. */
  predicate ClosedDirty(w: Writer) { w.closed && w.dirty }

  ghost predicate ClientOk(w: Writer, c: Client) {
    match c
    case Draining(goal) => goal <= |w.accepted|
    case Judging(goal) => goal <= |w.accepted| && (!w.ioFailed ==> goal <= |w.written|)
    case Locked(goal) => goal <= |w.written| && w.policy != No
    case Answering(goal) => goal <= |w.written| && (w.policy != No && !w.ioFailed && !ClosedDirty(w) ==> goal <= w.synced)
    case Answered(goal, ok) => if !ok then w.ioFailed else goal <= |w.written| && (w.policy != No && !ClosedDirty(w) ==> goal <= w.synced)
    case _ => true
  }

  ghost predicate Shared(w: Writer) { CountOk(w) && OrderOk(w) && SyncOk(w) && HaltOk(w) && |w.queue| <= w.cap }

  ghost predicate Inv(w: Writer) {
    Shared(w) && forall id | id in w.clients :: ClientOk(w, w.clients[id])
  }

  // ---- a client's action --------------------------------------------------------------------------------------------

  lemma OneLess(s: set<nat>, id: nat)
    ensures |s - {id}| == |s| - (if id in s then 1 else 0)
  {
    assert s == if id in s then s - {id} + {id} else s - {id};
  }

  /** How a client's move changes the number of pushes in progress. */
  lemma Moved(clients: map<nat, Client>, id: nat, was: Client, now: Client)
    requires was == if id in clients then clients[id] else Out
    ensures |InPush(clients[id := now])|
         == |InPush(clients)| - (if Counted(was) then 1 else 0) + (if Counted(now) then 1 else 0)
  {
    hide Counted;
    var before, after := InPush(clients), InPush(clients[id := now]);
    OneLess(before, id);
    OneLess(after, id);
    assert after - {id} == before - {id};
    assert !Counted(Out) by { OutIdle(); }
    assert id in before <==> Counted(was);
    assert id in after <==> Counted(now);
  }

  lemma OutIdle()
    ensures !Counted(Out)
  {}

  /** What others have been promised survives: flags and counters only rise. */
  ghost predicate Rises(w: Writer, t: Writer) {
    && t.policy == w.policy && |w.accepted| <= |t.accepted| && |w.written| <= |t.written| && w.synced <= t.synced
    && (w.ioFailed ==> t.ioFailed) && (ClosedDirty(w) ==> ClosedDirty(t))
  }

  lemma OthersOk(w: Writer, t: Writer, c: Client)
    requires Rises(w, t) && ClientOk(w, c)
    ensures ClientOk(t, c)
  {}

  /** A client that finds pending_ at zero finds everything accepted so far written, unless the writer
      has failed; and what it then syncs is all of that. */
  lemma ActOk(w: Writer, id: nat, c: Client, act: Act)
    requires Shared(w) && ClientOk(w, c) && Ready(w, id, c, act)
    ensures var (d, t) := ActOf(w, id, c, act);
            ClientOk(t, d) && Rises(w, t) && OrderOk(t) && SyncOk(t) && HaltOk(t) && |t.queue| <= t.cap
  {
    hide Less, InPush;
    match act
    case Drained => NothingPending(w);
    case Push =>
      if !w.cancelled && !w.dropped {
        assert w.written + Unwritten(w.flusher) + (w.queue + [c.frame]) == w.accepted + [c.frame];
      }
    case _ =>
  }

  lemma NothingPending(w: Writer)
    requires CountOk(w) && OrderOk(w) && w.pending == 0
    ensures w.queue == [] && Hand(w.flusher) == 0 && (!w.dropped ==> w.written == w.accepted)
  {
    assert |Unwritten(w.flusher)| <= Hand(w.flusher);
    if !w.dropped {
      assert w.written + [] + [] == w.accepted;
    }
  }

  /** The count stays exact, and the subtraction of a refused push never saturates. */
  lemma ActCounts(w: Writer, id: nat, act: Act)
    requires CountOk(w) && Ready(w, id, At(w, id), act)
    ensures CountOk(ClientStep(w, id, act)) && (act.Undo? ==> w.pending >= 1)
  {
    var (d, t) := ActOf(w, id, At(w, id), act);
    Moved(w.clients, id, At(w, id), d);
  }

  lemma ClientKeeps(w: Writer, id: nat, act: Act)
    requires Inv(w) && Ready(w, id, At(w, id), act)
    ensures Inv(ClientStep(w, id, act)) && Rises(w, ClientStep(w, id, act))
    ensures act.Undo? ==> w.pending >= 1
  {
    hide ClientOk, CountOk, OrderOk, SyncOk, HaltOk, ActOf, Ready, Rises;
    assert ClientOk(w, At(w, id)) by { OutOk(w); }
    ActOk(w, id, At(w, id), act);
    ActCounts(w, id, act);
    var (d, u) := ActOf(w, id, At(w, id), act);
    var t := ClientStep(w, id, act);
    SameShared(u, t);
    OutsideSame(u, t, d);
    RisesSame(w, u, t);
    forall other | other in t.clients ensures ClientOk(t, t.clients[other]) {
      if other != id {
        OthersOk(w, t, w.clients[other]);
      }
    }
  }

  lemma OutOk(w: Writer)
    ensures ClientOk(w, Out)
  {}

  lemma SameShared(u: Writer, t: Writer)
    requires t == u.(clients := t.clients)
    ensures (OrderOk(u) ==> OrderOk(t)) && (SyncOk(u) ==> SyncOk(t)) && (HaltOk(u) ==> HaltOk(t))
  {}

  lemma OutsideSame(u: Writer, t: Writer, c: Client)
    requires t == u.(clients := t.clients) && ClientOk(u, c)
    ensures ClientOk(t, c)
  {}

  lemma RisesSame(w: Writer, u: Writer, t: Writer)
    requires t == u.(clients := t.clients) && Rises(w, u)
    ensures Rises(w, t)
  {}

  // ---- an action of the background thread ---------------------------------------------------------------------------------

  /** What a move keeps of the shared state, and that what it takes off pending_ was counted there. */
  ghost predicate Kept(w: Writer, t: Writer, move: Move) {
    && (CountOk(w) ==> CountOk(t) && (move.TakeOff? ==> w.pending >= Hand(w.flusher)))
    && (OrderOk(w) ==> OrderOk(t)) && (SyncOk(w) && HaltOk(w) ==> SyncOk(t)) && (HaltOk(w) ==> HaltOk(t) && !w.closed)
    && |t.queue| <= |w.queue| && t.cap == w.cap && t.clients == w.clients && t.accepted == w.accepted && t.policy == w.policy
    && |w.written| <= |t.written| && (SyncOk(w) ==> w.synced <= t.synced) && (w.ioFailed ==> t.ioFailed)
    && (t.flusher.Empty? ==> move.TimeOut? && w.queue == [] && t.queue == [])
    && (t.flusher.Exited? ==> move.ReadCancelled? || (move.Exit? && w.flusher.Purging? && t.queue == []))
  }

  lemma PopsKept(w: Writer, move: Move)
    requires CanMove(w, move) && (move.PopFirst? || move.PopMore? || move.NoMore? || move.TimeOut? || move.Purge?)
    ensures Kept(w, FlusherStep(w, move), move)
  {
    if move.PopFirst? || move.PopMore? {
      TakesFirst(w, Unwritten(w.flusher) + [w.queue[0]], w.queue[1..]);
      assert [] + [w.queue[0]] == [w.queue[0]];
    }
  }

  lemma LooksKept(w: Writer)
    requires CanMove(w, ReadCancelled)
    ensures Kept(w, FlusherStep(w, ReadCancelled), ReadCancelled)
  {
    hide InPush;
  }

  lemma ChecksKept(w: Writer)
    requires CanMove(w, CheckFailed)
    ensures Kept(w, FlusherStep(w, CheckFailed), CheckFailed)
  {
    hide InPush;
  }

  lemma DecideKept(w: Writer)
    requires CanMove(w, Decide)
    ensures Kept(w, FlusherStep(w, Decide), Decide)
  {
    hide InPush;
  }

  lemma OpenKept(w: Writer, ok: bool)
    requires CanMove(w, Open(ok))
    ensures Kept(w, FlusherStep(w, Open(ok)), Open(ok))
  {
    hide InPush;
  }

  lemma WriteKept(w: Writer, ok: bool)
    requires CanMove(w, WriteBatch(ok))
    ensures Kept(w, FlusherStep(w, WriteBatch(ok)), WriteBatch(ok))
  {
    hide InPush;
    Writes(w);
    if ok && forall i | 0 <= i < |w.flusher.batch| :: w.flusher.batch[i] != [] {
      BatchWritten(w, FlusherStep(w, WriteBatch(ok)));
    }
  }

  lemma BatchWritten(w: Writer, t: Writer)
    requires w.flusher.Writing?
    requires t == w.(flusher := Syncing(|w.flusher.batch|), written := w.written + w.flusher.batch, dirty := true)
    ensures (OrderOk(w) ==> OrderOk(t)) && (SyncOk(w) ==> SyncOk(t))
  {
    Writes(w);
  }

  /** A sync, successful or not, touches nothing but its own bookkeeping. */
  lemma SyncedOnly(w: Writer, ok: bool)
    ensures var t := Sync(w, ok);
            && t == w.(dirty := t.dirty, synced := t.synced, ioFailed := t.ioFailed) && (w.ioFailed ==> t.ioFailed)
            && (SyncOk(w) ==> SyncOk(t) && w.synced <= t.synced)
            && (w.policy != No && !w.closed ==> !t.dirty || t.ioFailed)
  {}

  /** The same seen from the next wait. */
  lemma SyncWaits(w: Writer, ok: bool)
    requires w.flusher.Ticking?
    ensures var t := Sync(w, ok);
            SyncOk(w) ==> && (HaltOk(w) && (ok || w.ioFailed || !w.dirty) ==> SyncOk(t.(flusher := Waiting)))
                          && SyncOk(t.(flusher := Waiting, cancelled := true)) && w.synced <= t.synced
    ensures SyncOk(w) && (w.ioFailed || !w.dirty) ==> SyncOk(w.(flusher := Waiting))
  {
    hide Sync;
    SyncedOnly(w, ok);
  }

  lemma TickKept(w: Writer, ok: bool)
    requires CanMove(w, Tick(ok))
    ensures Kept(w, FlusherStep(w, Tick(ok)), Tick(ok))
  {
    hide InPush, Sync, Less, SyncOk;
    assert Hand(w.flusher) == 0 && Hand(Waiting) == 0 && Unwritten(w.flusher) == Unwritten(Waiting);
    SyncWaits(w, true);
    SyncWaits(w, false);
    SyncedOnly(w, true);
    SyncedOnly(w, false);
  }

  lemma SyncBatchKept(w: Writer, due: bool, ok: bool)
    requires CanMove(w, SyncBatch(due, ok))
    ensures Kept(w, FlusherStep(w, SyncBatch(due, ok)), SyncBatch(due, ok))
  {
    hide InPush, Sync;
    SyncedOnly(w, ok);
  }

  lemma EndsKept(w: Writer, move: Move)
    requires CanMove(w, move) && (move.TakeOff? || move.CancelAll? || move.Exit?)
    ensures Kept(w, FlusherStep(w, move), move)
  {}

  /** On every path, failing ones included. */
  lemma MoveKept(w: Writer, move: Move)
    requires CanMove(w, move)
    ensures Kept(w, FlusherStep(w, move), move)
  {
    hide FlusherStep, Kept, CanMove;
    match move
    case WriteBatch(ok) => WriteKept(w, ok);
    case Tick(ok) => TickKept(w, ok);
    case SyncBatch(due, ok) => SyncBatchKept(w, due, ok);
    case ReadCancelled => LooksKept(w);
    case Decide => DecideKept(w);
    case CheckFailed => ChecksKept(w);
    case Open(ok) => OpenKept(w, ok);
    case PopFirst => PopsKept(w, move);
    case PopMore => PopsKept(w, move);
    case NoMore => PopsKept(w, move);
    case TimeOut => PopsKept(w, move);
    case Purge => PopsKept(w, move);
    case _ => EndsKept(w, move);
  }

  lemma TakesFirst(w: Writer, batch: seq<Bytes>, rest: seq<Bytes>)
    requires w.queue != [] && batch == Unwritten(w.flusher) + [w.queue[0]] && rest == w.queue[1..]
    ensures w.written + batch + rest == w.written + Unwritten(w.flusher) + w.queue
  {
    assert w.queue == [w.queue[0]] + rest;
  }

  lemma Writes(w: Writer)
    requires w.flusher.Writing?
    ensures w.written + w.flusher.batch + [] + w.queue == w.written + Unwritten(w.flusher) + w.queue
    ensures !w.dropped && OrderOk(w) ==> w.written <= w.accepted
  {}

  lemma FlusherKeeps(w: Writer, move: Move)
    requires Inv(w) && CanMove(w, move)
    ensures Inv(FlusherStep(w, move)) && Rises(w, FlusherStep(w, move))
    ensures move.TakeOff? ==> w.pending >= Hand(w.flusher)
  {
    hide ClientOk, CountOk, OrderOk, SyncOk, HaltOk, FlusherStep, CanMove;
    MoveKept(w, move);
    var t := FlusherStep(w, move);
    forall id | id in t.clients ensures ClientOk(t, t.clients[id]) {
      OthersOk(w, t, w.clients[id]);
    }
  }

  // ---- every interleaving ----------------------------------------------------------------------------------------------------

  ghost predicate Initial(w: Writer) {
    && w.queue == [] && !w.cancelled && w.pending == 0 && !w.ioFailed && !w.dirty && w.flusher == Waiting
    && !w.stopped && w.stopper == None && !w.closed && 0 < w.cap
    && w.clients == map[] && w.accepted == [] && w.written == [] && w.synced == 0 && !w.dropped
  }

  ghost predicate IsRun(ws: seq<Writer>, es: seq<Event>) {
    && |ws| == |es| + 1 && Initial(ws[0])
    && forall i | 0 <= i < |es| :: Enabled(ws[i], es[i]) && ws[i + 1] == Step(ws[i], es[i])
  }

  /** In every state of every interleaving the pending count is exact and the order intact. */
  lemma {:induction false} RunKeeps(ws: seq<Writer>, es: seq<Event>, i: nat)
    requires IsRun(ws, es) && i < |ws|
    ensures Inv(ws[i])
  {
    hide Inv, Enabled, Step;
    if i == 0 {
      InitialInv(ws[0]);
    } else {
      RunKeeps(ws, es, i - 1);
      StepKeeps(ws[i - 1], es[i - 1]);
    }
  }

  lemma InitialInv(w: Writer)
    requires Initial(w)
    ensures Inv(w)
  {
    assert InPush(w.clients) == {};
  }

  lemma StepKeeps(w: Writer, e: Event)
    requires Inv(w) && Enabled(w, e)
    ensures Inv(Step(w, e)) && Rises(w, Step(w, e))
  {
    hide Inv, Rises, Ready, CanMove, ClientStep, FlusherStep;
    match e
    case Does(id, act) => ClientKeeps(w, id, act);
    case Background(move) => FlusherKeeps(w, move);
  }

  /** No subtraction from pending_ ever saturates, so none hides a miscount. */
  lemma NeverSaturates(ws: seq<Writer>, es: seq<Event>, i: nat)
    requires IsRun(ws, es) && i < |es|
    ensures es[i] == Background(TakeOff) ==> Hand(ws[i].flusher) <= ws[i].pending
    ensures es[i].Does? && es[i].act == Undo ==> 1 <= ws[i].pending
  {
    hide Inv, Step, Rises, ClientStep, FlusherStep;
    RunKeeps(ws, es, i);
    match es[i]
    case Does(id, act) => ClientKeeps(ws[i], id, act);
    case Background(move) => FlusherKeeps(ws[i], move);
  }

  /** A Flush that returns true has every frame accepted before it was called in the file, in order.
      Unless the policy is `No` they are synced, too, whatever the other threads did meanwhile,
      except when Stop has closed the file over bytes that were not. */
  lemma TrueFlush(ws: seq<Writer>, es: seq<Event>, i: nat, j: nat, id: nat)
    requires IsRun(ws, es) && i < j < |ws|
    requires es[i] == Does(id, CallFlush) && At(ws[j], id) == Answered(|ws[i].accepted|, true)
    ensures var w, goal := ws[j], ws[i].accepted;
            && goal <= w.written
            && (w.policy != No && !ClosedDirty(w) ==> |goal| <= w.synced)
            && (w.policy != No && w.accepted == goal ==> (|goal| <= w.synced <==> !ClosedDirty(w)))
  {
    hide Step, CountOk;
    RunKeeps(ws, es, j);
    var w := ws[j];
    assert ClientOk(w, w.clients[id]);
    AcceptedGrows(ws, es, i, j);
    assert w.written <= w.accepted;
  }

  lemma {:induction false} AcceptedGrows(ws: seq<Writer>, es: seq<Event>, i: nat, j: nat)
    requires IsRun(ws, es) && i <= j < |ws|
    ensures ws[i].accepted <= ws[j].accepted
    decreases j - i
  {
    hide Enabled, Step;
    if i < j {
      AcceptedGrows(ws, es, i, j - 1);
      StepGrows(ws[j - 1], es[j - 1]);
    }
  }

  lemma StepGrows(w: Writer, e: Event)
    requires Enabled(w, e)
    ensures w.accepted <= Step(w, e).accepted
  {
    hide FlusherStep, CanMove, CountOk, OrderOk, SyncOk, HaltOk, ClientStep, Ready;
    match e
    case Does(id, act) => ClientPushes(w, id, act);
    case Background(move) => MoveKept(w, move);
  }

  /** While the writer has not failed nothing is lost: written, in hand and queued make up all that was accepted. */
  lemma NothingLost(ws: seq<Writer>, es: seq<Event>, i: nat)
    requires IsRun(ws, es) && i < |ws| && !ws[i].ioFailed
    ensures ws[i].written + Unwritten(ws[i].flusher) + ws[i].queue == ws[i].accepted
  {
    RunKeeps(ws, es, i);
  }


  // ---- when frames are synced, and why the writer fails ------------------------------------------------------------------------

  /** In every state of every run a flush answers false only if the writer has failed; under `Always` everything
      written is synced unless the batch just written is about to be; and a batch never exceeds its limit. */
  lemma AlwaysSynced(ws: seq<Writer>, es: seq<Event>, i: nat, id: nat)
    requires IsRun(ws, es) && i < |ws|
    ensures var w := ws[i];
            && (At(w, id).Answered? && !At(w, id).ok ==> w.ioFailed)
            && (w.policy == Always && !w.ioFailed && !w.flusher.Syncing? ==> w.synced == |w.written|)
            && Hand(w.flusher) <= MAX_BATCH
  {
    RunKeeps(ws, es, i);
    if id in ws[i].clients {
      assert ClientOk(ws[i], ws[i].clients[id]);
    }
  }

  /** A sync that is due is done: after a batch under `Always`, at the second's end or with the second's first batch
      under `EverySec`, everything written is synced, or the writer has failed. */
  lemma DueSyncs(ws: seq<Writer>, es: seq<Event>, i: nat)
    requires IsRun(ws, es) && i < |es| && es[i].Background?
    requires es[i].move.Tick? || (es[i].move.SyncBatch? && ws[i].policy != No && (ws[i].policy == Always || es[i].move.due))
    ensures ws[i + 1].ioFailed || ws[i + 1].synced == |ws[i + 1].written|
  {
    hide CountOk, ClientOk, OrderOk;
    RunKeeps(ws, es, i);
    Ticks(ws[i], es[i].move);
  }

  lemma Ticks(w: Writer, move: Move)
    requires SyncOk(w) && HaltOk(w) && CanMove(w, move)
    requires move.Tick? || (move.SyncBatch? && w.policy != No && (w.policy == Always || move.due))
    requires w.flusher.Ticking? ==> w.policy == EverySec
    ensures var t := FlusherStep(w, move); t.ioFailed || t.synced == |t.written|
  {}

  /** Why the writer fails: a file that cannot be opened, written or synced, or an empty frame. */
  lemma FailsOnlyBy(w: Writer, e: Event)
    requires Enabled(w, e) && !w.ioFailed && Step(w, e).ioFailed
    ensures || (e.Does? && e.act == SyncNow(false) && w.dirty)
            || (e.Background?
                && match e.move
                   case Open(ok) => !ok
                   case WriteBatch(ok) => !ok || exists i :: 0 <= i < |w.flusher.batch| && w.flusher.batch[i] == []
                   case SyncBatch(_, ok) => !ok && w.dirty
                   case Tick(ok) => !ok && w.dirty
                   case _ => false)
  {
    hide Less, FlusherStep, ClientStep, CanMove, Ready;
    match e
    case Does(id, act) => ActFails(w, id, act);
    case Background(move) => MoveFails(w, move);
  }

  lemma ActFails(w: Writer, id: nat, act: Act)
    requires Ready(w, id, At(w, id), act) && !w.ioFailed && ClientStep(w, id, act).ioFailed
    ensures act == SyncNow(false) && w.dirty
  {
    hide Less, Hand;
  }

  lemma MoveFails(w: Writer, move: Move)
    requires CanMove(w, move) && !w.ioFailed && FlusherStep(w, move).ioFailed
    ensures match move
            case Open(ok) => !ok
            case WriteBatch(ok) => !ok || exists i :: 0 <= i < |w.flusher.batch| && w.flusher.batch[i] == []
            case SyncBatch(_, ok) => !ok && w.dirty
            case Tick(ok) => !ok && w.dirty
            case _ => false
  {
    hide Less, Hand;
    match move
    case Open(ok) =>
    case WriteBatch(ok) =>
    case SyncBatch(due, ok) =>
    case Tick(ok) =>
    case Decide =>
    case _ => OthersFail(w, move);
  }

  lemma OthersFail(w: Writer, move: Move)
    requires CanMove(w, move) && !(move.Open? || move.WriteBatch? || move.SyncBatch? || move.Tick? || move.Decide?)
    ensures FlusherStep(w, move).ioFailed == w.ioFailed
  {
    hide Less, Hand, Sync, GiveUp;
    match move
    case PopFirst =>
    case PopMore =>
    case TakeOff =>
    case Purge =>
    case _ =>
  }

  /** The background thread has given up: the queue is cancelled, or is about to be. */
  predicate Doomed(w: Writer) {
    w.ioFailed && (w.cancelled || w.flusher.Checking? || w.flusher.Failing? || w.flusher.Cancelling?)
  }

  lemma DoomedStays(w: Writer, e: Event)
    requires Enabled(w, e) && Doomed(w)
    ensures Doomed(Step(w, e))
  {
    hide Doomed, ClientStep, FlusherStep, Ready, CanMove;
    match e
    case Does(id, act) => DoomedActs(w, id, act);
    case Background(move) => DoomedMoves(w, move);
  }

  lemma DoomedActs(w: Writer, id: nat, act: Act)
    requires Ready(w, id, At(w, id), act) && Doomed(w)
    ensures Doomed(ClientStep(w, id, act))
  {
    hide Less, Sync;
    if act.SyncNow? {
      SyncedOnly(w, act.ok);
    }
  }

  lemma DoomedMoves(w: Writer, move: Move)
    requires CanMove(w, move) && Doomed(w)
    ensures Doomed(FlusherStep(w, move))
  {
    hide Less, Hand, Sync;
    match move
    case Tick(ok) =>
      SyncedOnly(w, true);
      SyncedOnly(w, false);
    case SyncBatch(due, ok) => SyncedOnly(w, ok);
    case _ => DoomedOtherMoves(w, move);
  }

  lemma DoomedOtherMoves(w: Writer, move: Move)
    requires CanMove(w, move) && Doomed(w) && !move.Tick? && !move.SyncBatch?
    ensures Doomed(FlusherStep(w, move))
  {
    hide Less, Hand, Sync;
  }

  lemma FailureDooms(w: Writer, move: Move)
    requires CanMove(w, move) && !w.ioFailed && FlusherStep(w, move).ioFailed
    ensures Doomed(FlusherStep(w, move))
  {
    hide Less, Hand;
    MoveFails(w, move);
  }

  /** Over every run: once the background thread has failed by an action of its own, it does nothing else before the
      queue is cancelled, and no frame is accepted after that. */
  lemma {:induction false} FailureCancels(ws: seq<Writer>, es: seq<Event>, i: nat, j: nat)
    requires IsRun(ws, es) && i < j < |ws| && es[i].Background? && !ws[i].ioFailed && ws[i + 1].ioFailed
    ensures Doomed(ws[j])
  {
    hide Doomed, FlusherStep, ClientStep;
    if j == i + 1 {
      FailureDooms(ws[i], es[i].move);
    } else {
      FailureCancels(ws, es, i, j - 1);
      DoomedStays(ws[j - 1], es[j - 1]);
    }
  }

  /** A frame is refused only by a writer that has stopped or failed or whose queue is cancelled; one that is pushed
      is accepted behind all the others. */
  lemma RefusedOnlyBy(w: Writer, id: nat, act: Act)
    requires Ready(w, id, At(w, id), act)
    ensures var t := ClientStep(w, id, act);
            && (act.Check? ==> (At(t, id) == Out <==> w.stopped || w.ioFailed || w.cancelled))
            && (act.Push? ==> (At(t, id) != Out <==> w.cancelled))
            && t.accepted == w.accepted + (if act.Push? && !w.cancelled then [At(w, id).frame] else [])
  {
    hide Less, Sync;
    if act.SyncNow? {
      SyncedOnly(w, act.ok);
    }
  }

  /** The background thread is never stuck before it exits. */
  lemma NeverStuck(ws: seq<Writer>, es: seq<Event>, i: nat)
    requires IsRun(ws, es) && i < |ws| && !ws[i].flusher.Exited?
    ensures exists move :: CanMove(ws[i], move)
  {
    var w := ws[i];
    match w.flusher
    case Waiting => assert CanMove(w, if w.queue != [] then PopFirst else TimeOut);
    case Empty => assert CanMove(w, ReadCancelled);
    case Ticking => assert CanMove(w, Tick(true));
    case Collecting(_) => assert CanMove(w, NoMore);
    case Deciding(_) => assert CanMove(w, Decide);
    case Locking(_) => assert CanMove(w, Open(true));
    case Writing(_) => assert CanMove(w, WriteBatch(true));
    case Syncing(_) => assert CanMove(w, SyncBatch(true, true));
    case Checking(_) => assert CanMove(w, CheckFailed);
    case Counting(_) => assert CanMove(w, TakeOff);
    case Failing(_) => assert CanMove(w, TakeOff);
    case Cancelling => assert CanMove(w, CancelAll);
    case Purging => assert CanMove(w, if w.queue != [] then Purge else Exit);
    case Purged => assert CanMove(w, TakeOff);
    case Exited =>
  }

  // ---- frames accepted during Stop ----------------------------------------------------------------------------------------------

  /** Where the background thread has got nothing, it timed out on an empty queue and has done nothing since. */
  lemma {:induction false} TimedOut(ws: seq<Writer>, es: seq<Event>, i: nat) returns (j: nat)
    requires IsRun(ws, es) && i < |ws| && ws[i].flusher.Empty?
    ensures j < i && es[j] == Background(TimeOut) && ws[j].queue == [] && ws[j].accepted <= ws[i].accepted
    ensures ws[i].queue == ws[i].accepted[|ws[j].accepted|..]
    ensures forall k | j < k < i :: es[k].Does?
  {
    hide Initial, Enabled, Step;
    assert i > 0 by { StartsWaiting(ws[0]); }
    var w, t := ws[i - 1], ws[i];
    GetsNothing(w, es[i - 1]);
    if es[i - 1].Does? {
      j := TimedOut(ws, es, i - 1);
      LongerTail(ws[j].accepted, w.accepted, t.accepted);
    } else {
      j := i - 1;
    }
  }

  lemma LongerTail(a: seq<Bytes>, b: seq<Bytes>, c: seq<Bytes>)
    requires a <= b <= c
    ensures c[|a|..] == b[|a|..] + c[|b|..]
  {}

  /** How the background thread comes to have got nothing, and what happens around it meanwhile. */
  lemma GetsNothing(w: Writer, e: Event)
    requires Enabled(w, e) && Step(w, e).flusher.Empty?
    ensures var t := Step(w, e);
            && w.accepted <= t.accepted && t.queue == w.queue + t.accepted[|w.accepted|..]
            && (e.Does? ==> w.flusher.Empty?)
            && (e.Background? ==> e.move.TimeOut? && w.queue == [] && t.accepted == w.accepted)
  {
    hide FlusherStep, ClientStep, CanMove, Ready, CountOk, OrderOk, SyncOk, HaltOk;
    match e
    case Does(id, act) => ClientPushes(w, id, act);
    case Background(move) => MoveKept(w, move);
  }

  lemma StartsWaiting(w: Writer)
    requires Initial(w)
    ensures w.flusher.Waiting?
  {}

  lemma ClientPushes(w: Writer, id: nat, act: Act)
    requires Ready(w, id, At(w, id), act)
    ensures var t := ClientStep(w, id, act);
            t.flusher == w.flusher && w.accepted <= t.accepted && t.queue == w.queue + t.accepted[|w.accepted|..]
            && t.written == w.written && (w.cancelled ==> t.accepted == w.accepted)
  {
    hide ActOf;
    ActPushes(w, id, At(w, id), act);
  }

  lemma ActPushes(w: Writer, id: nat, c: Client, act: Act)
    requires Ready(w, id, c, act)
    ensures var (d, t) := ActOf(w, id, c, act);
            t.flusher == w.flusher && w.accepted <= t.accepted && t.queue == w.queue + t.accepted[|w.accepted|..]
            && t.written == w.written && (w.cancelled ==> t.accepted == w.accepted)
  {
    if act.Push? {
      assert !w.cancelled ==> (w.accepted + [c.frame])[|w.accepted|..] == [c.frame];
    } else {
      hide ActOf, Ready;
      ActElse(w, id, c, act, ActOf(w, id, c, act).1);
    }
  }

  lemma ActElse(w: Writer, id: nat, c: Client, act: Act, t: Writer)
    requires Ready(w, id, c, act) && !act.Push? && t == ActOf(w, id, c, act).1
    ensures t.flusher == w.flusher && t.accepted == w.accepted && t.queue == w.queue && t.written == w.written
  {
    hide Less, Sync, Ready;
    match act
    case SyncNow(ok) => SyncedOnly(w, ok);
    case Count =>
    case Undo =>
    case CallStop =>
    case CancelQueue =>
    case Join =>
    case _ =>
  }

  lemma ClientWaits(w: Writer, id: nat, act: Act)
    requires Ready(w, id, At(w, id), act) && w.pending > 0
    ensures forall other | At(w, other).Draining? :: At(ClientStep(w, id, act), other) == At(w, other)
  {
    hide Less, Sync, ActOf;
    assert !At(w, id).Draining?;
  }

  /** Exactly when an exit leaves accepted frames behind: some were pushed after the background thread
      timed out and before it looked at the cancelled queue. These are the frames. */
  lemma ExitStrands(ws: seq<Writer>, es: seq<Event>, i: nat) returns (j: nat)
    requires IsRun(ws, es) && i < |es| && es[i] == Background(ReadCancelled) && ws[i].cancelled
    ensures j < i && es[j] == Background(TimeOut) && forall k | j < k < i :: es[k].Does?
    ensures ws[j].accepted <= ws[i].accepted
    ensures var t := ws[i + 1];
            && t.flusher.Exited? && t.accepted == ws[i].accepted && t.queue == t.accepted[|ws[j].accepted|..]
            && (!t.ioFailed ==> (t.written == t.accepted <==> ws[i].accepted == ws[j].accepted))
  {
    j := TimedOut(ws, es, i);
    RunKeeps(ws, es, i + 1);
    var t := ws[i + 1];
    if !t.ioFailed {
      assert t.written + [] + t.queue == t.accepted;
    }
  }

  /** The other way out leaves nothing. */
  lemma PurgedLeavesNothing(ws: seq<Writer>, es: seq<Event>, i: nat)
    requires IsRun(ws, es) && i < |es| && !ws[i].flusher.Exited? && ws[i + 1].flusher.Exited?
    ensures es[i] == Background(ReadCancelled) || (es[i] == Background(Exit) && ws[i + 1].queue == [] && ws[i].ioFailed)
  {
    RunKeeps(ws, es, i);
    PurgingFailed(ws[i]);
    hide Inv, ClientStep, FlusherStep, CanMove, Ready, CountOk, OrderOk, SyncOk, HaltOk;
    match es[i]
    case Does(id, act) => ClientPushes(ws[i], id, act);
    case Background(move) => MoveKept(ws[i], move);
  }

  lemma PurgingFailed(w: Writer)
    requires Inv(w)
    ensures w.flusher.Purging? ==> w.ioFailed
  {}

  /** Once the background thread is gone nothing is queued, written or accepted any more; while
      frames are left in the queue no Flush that waits is ever answered. */
  lemma {:induction false} Stranded(ws: seq<Writer>, es: seq<Event>, i: nat, m: nat)
    requires IsRun(ws, es) && i <= m < |ws| && ws[i].flusher.Exited?
    ensures var w, t := ws[i], ws[m];
            && t.flusher.Exited? && t.queue == w.queue && t.written == w.written && t.accepted == w.accepted
            && |w.queue| <= t.pending
            && (w.queue != [] ==> forall id | At(w, id).Draining? :: At(t, id) == At(w, id))
    decreases m - i
  {
    hide Inv, Enabled, Step;
    if i < m {
      Stranded(ws, es, i, m - 1);
      RunKeeps(ws, es, m - 1);
      StaysOut(ws[m - 1], es[m - 1]);
    }
    RunKeeps(ws, es, m);
    CountsQueue(ws[m]);
  }

  lemma CountsQueue(w: Writer)
    requires Inv(w)
    ensures |w.queue| <= w.pending
  {}

  lemma StaysOut(w: Writer, e: Event)
    requires Inv(w) && w.flusher.Exited? && Enabled(w, e)
    ensures var t := Step(w, e);
            && t.flusher.Exited? && t.queue == w.queue && t.written == w.written && t.accepted == w.accepted
            && (w.queue != [] ==> forall id | At(w, id).Draining? :: At(t, id) == At(w, id))
  {
    hide Inv, ClientStep, FlusherStep, Ready;
    CountsQueue(w);
    ExitedCancelled(w);
    match e
    case Does(id, act) =>
      ClientPushes(w, id, act);
      if w.queue != [] {
        ClientWaits(w, id, act);
      }
    case Background(move) =>
  }

  lemma ExitedCancelled(w: Writer)
    requires Inv(w) && w.flusher.Exited?
    ensures w.cancelled
  {}

  // ---- two runs that Stop permits -------------------------------------------------------------------------------------------------

  predicate Runs(w: Writer, es: seq<Event>)
    decreases |es|
  {
    es == [] || (Enabled(w, es[0]) && Runs(Step(w, es[0]), es[1..]))
  }

  function After(w: Writer, es: seq<Event>): Writer
    requires Runs(w, es)
    decreases |es|
  {
    if es == [] then w else After(Step(w, es[0]), es[1..])
  }

  lemma {:induction false} RunsOn(w: Writer, a: seq<Event>, b: seq<Event>)
    requires Runs(w, a) && Runs(After(w, a), b)
    ensures Runs(w, a + b) && After(w, a + b) == After(After(w, a), b)
    decreases |a|
  {
    hide Enabled, Step;
    if a == [] {
      assert a + b == b;
    } else {
      assert (a + b)[1..] == a[1..] + b;
      RunsOn(Step(w, a[0]), a[1..], b);
    }
  }

  lemma One(w: Writer, e: Event)
    requires Enabled(w, e)
    ensures Runs(w, [e]) && After(w, [e]) == Step(w, e)
  {
    hide Enabled, Step;
    assert [e][1..] == [];
  }

  lemma Then(w: Writer, es: seq<Event>, t: Writer, e: Event)
    requires Runs(w, es) && After(w, es) == t && Enabled(t, e)
    ensures Runs(w, es + [e]) && After(w, es + [e]) == Step(t, e)
  {
    hide Enabled, Step;
    One(t, e);
    RunsOn(w, es, [e]);
  }

  function FlushOf(id: nat, policy: Policy): seq<Event> {
    if policy == No then [Does(id, Drained), Does(id, Judge), Does(id, Answer)]
    else [Does(id, Drained), Does(id, Judge), Does(id, SyncNow(true)), Does(id, Answer)]
  }

  /** Only this client and what is synced have changed. */
  predicate OnlyClient(w: Writer, t: Writer, id: nat) {
    && t == w.(clients := t.clients, dirty := t.dirty, synced := t.synced)
    && (!w.dirty ==> !t.dirty && t.synced == w.synced)
    && (w.closed ==> t.dirty == w.dirty && t.synced == w.synced)
    && t.clients == w.clients[id := At(t, id)]
  }

  lemma DrainedThen(w: Writer, id: nat, goal: nat)
    requires At(w, id) == Draining(goal) && w.pending == 0
    ensures var e := Does(id, Drained); Enabled(w, e) && Step(w, e) == w.(clients := w.clients[id := Judging(goal)])
  {}

  lemma JudgeThen(w: Writer, id: nat, goal: nat)
    requires At(w, id) == Judging(goal) && !w.ioFailed
    ensures var e := Does(id, Judge);
            && Enabled(w, e)
            && Step(w, e) == w.(clients := w.clients[id := if w.policy == No then Answering(goal) else Locked(goal)])
  {}

  lemma SyncThen(w: Writer, id: nat, goal: nat)
    requires At(w, id) == Locked(goal) && !HoldsFile(w.flusher)
    ensures var e := Does(id, SyncNow(true));
            Enabled(w, e) && Step(w, e) == Sync(w, true).(clients := w.clients[id := Answering(goal)])
  {}

  lemma AnswerThen(w: Writer, id: nat, goal: nat)
    requires At(w, id) == Answering(goal) && !w.ioFailed
    ensures var e := Does(id, Answer); Enabled(w, e) && Step(w, e) == w.(clients := w.clients[id := Answered(goal, true)])
  {}

  /** A flush with nothing pending, alone. */
  lemma FlushAlone(w: Writer, id: nat, goal: nat)
    requires At(w, id) == Draining(goal) && w.pending == 0 && !w.ioFailed && !HoldsFile(w.flusher)
    ensures var es := FlushOf(id, w.policy);
            Runs(w, es) && OnlyClient(w, After(w, es), id) && At(After(w, es), id) == Answered(goal, true)
  {
    hide Enabled, Step, Runs, After, OnlyClient;
    var e, f := Does(id, Drained), Does(id, Judge);
    DrainedThen(w, id, goal);
    One(w, e);
    var w1 := Step(w, e);
    JudgeThen(w1, id, goal);
    Then(w, [e], w1, f);
    var w2 := Step(w1, f);
    FlushEnds(w2, id, goal);
    RunsOn(w, [e] + [f], FlushEnd(id, w.policy));
    assert [e] + [f] + FlushEnd(id, w.policy) == FlushOf(id, w.policy);
    OnlyThis(w, w2, After(w2, FlushEnd(id, w.policy)), id);
  }

  function FlushEnd(id: nat, policy: Policy): seq<Event> {
    if policy == No then [Does(id, Answer)] else [Does(id, SyncNow(true)), Does(id, Answer)]
  }

  lemma FlushEnds(w: Writer, id: nat, goal: nat)
    requires At(w, id) == (if w.policy == No then Answering(goal) else Locked(goal)) && !w.ioFailed && !HoldsFile(w.flusher)
    ensures var es := FlushEnd(id, w.policy);
            Runs(w, es) && OnlyClient(w, After(w, es), id) && At(After(w, es), id) == Answered(goal, true)
  {
    hide Enabled, Step, Runs, After;
    var g, h := Does(id, SyncNow(true)), Does(id, Answer);
    if w.policy == No {
      AnswerThen(w, id, goal);
      One(w, h);
    } else {
      SyncThen(w, id, goal);
      One(w, g);
      var u := Step(w, g);
      AnswerThen(u, id, goal);
      Then(w, [g], u, h);
      assert [g] + [h] == FlushEnd(id, w.policy);
    }
  }

  lemma OnlyThis(w: Writer, u: Writer, t: Writer, id: nat)
    requires u == w.(clients := w.clients[id := At(u, id)]) && OnlyClient(u, t, id)
    ensures OnlyClient(w, t, id)
  {}

  /** Nobody is at work, and the writer neither failed nor stopped. */
  predicate Idle(w: Writer, a: nat, b: nat) {
    && w.queue == [] && w.pending == 0 && 0 < w.cap && !w.ioFailed && !w.cancelled && !w.stopped && !w.closed && !w.dirty
    && w.stopper == None && a != b && At(w, a) == Out && At(w, b) == Out
  }

  /** Thread a passes the checks of Enqueue, b stops the writer up to the end of its Flush. */
  function StopFlushes(a: nat, b: nat, frame: Bytes, policy: Policy): seq<Event> {
    [Does(a, Check(frame))] + [Does(b, CallStop)] + FlushOf(b, policy)
  }

  /** a pushes its frame, and b cancels the queue. */
  function LatePush(a: nat, b: nat): seq<Event> { [Does(a, Count)] + [Does(a, Push)] + [Does(b, CancelQueue)] }

  lemma CheckThen(w: Writer, id: nat, frame: Bytes)
    requires At(w, id) == Out && !w.stopped && !w.ioFailed && !w.cancelled
    ensures var e := Does(id, Check(frame)); Enabled(w, e) && Step(w, e) == w.(clients := w.clients[id := Entering(frame)])
  {}

  lemma CallStopThen(w: Writer, id: nat)
    requires At(w, id) == Out && !w.stopped
    ensures var e := Does(id, CallStop);
            && Enabled(w, e)
            && Step(w, e) == w.(stopped := true, stopper := Some(id), clients := w.clients[id := Draining(|w.accepted|)])
  {}

  lemma StopFlushed(w: Writer, a: nat, b: nat, frame: Bytes)
    requires Idle(w, a, b) && !HoldsFile(w.flusher)
    ensures var es := StopFlushes(a, b, frame, w.policy);
            && Runs(w, es)
            && After(w, es) == w.(stopped := true, stopper := Some(b),
                                  clients := w.clients[a := Entering(frame)][b := Answered(|w.accepted|, true)])
  {
    hide Enabled, Step, FlushOf, Runs, After;
    var e, f := Does(a, Check(frame)), Does(b, CallStop);
    CheckThen(w, a, frame);
    One(w, e);
    var w1 := Step(w, e);
    CallStopThen(w1, b);
    Then(w, [e], w1, f);
    var w2 := Step(w1, f);
    FlushAlone(w2, b, |w.accepted|);
    RunsOn(w, [e] + [f], FlushOf(b, w.policy));
    var t := After(w2, FlushOf(b, w.policy));
    assert w2.clients[b := At(t, b)] == w.clients[a := Entering(frame)][b := Answered(|w.accepted|, true)];
  }

  lemma LatePushed(w: Writer, a: nat, b: nat, frame: Bytes)
    requires w.queue == [] && w.pending == 0 && 0 < w.cap && !w.cancelled && w.stopper == Some(b) && a != b
    requires At(w, a) == Entering(frame) && At(w, b).Answered?
    ensures var es := LatePush(a, b);
            && Runs(w, es)
            && After(w, es) == w.(queue := [frame], accepted := w.accepted + [frame], pending := 1, cancelled := true,
                                  stopper := None, clients := w.clients[a := Out][b := Joining])
  {
    var e, f, g := Does(a, Count), Does(a, Push), Does(b, CancelQueue);
    One(w, e);
    var w1 := Step(w, e);
    Then(w, [e], w1, f);
    var w2 := Step(w1, f);
    Then(w, [e] + [f], w2, g);
    assert w2.clients == w.clients[a := Out];
  }

  /** Stop's Flush has answered true, the frame has been accepted, the queue is cancelled. */
  lemma LateFrame(w: Writer, a: nat, b: nat, frame: Bytes)
    requires Idle(w, a, b) && !HoldsFile(w.flusher)
    ensures var es := StopFlushes(a, b, frame, w.policy) + LatePush(a, b);
            && Runs(w, es)
            && After(w, es) == w.(stopped := true, queue := [frame], accepted := w.accepted + [frame], pending := 1, cancelled := true,
                                  clients := w.clients[a := Out][b := Joining])
  {
    hide Runs, After, StopFlushes, LatePush, Enabled, Step;
    StopFlushed(w, a, b, frame);
    var u := After(w, StopFlushes(a, b, frame, w.policy));
    LatePushed(u, a, b, frame);
    RunsOn(w, StopFlushes(a, b, frame, w.policy), LatePush(a, b));
    assert u.clients[a := Out][b := Joining] == w.clients[a := Out][b := Joining];
  }

  function StrandingRun(a: nat, b: nat, frame: Bytes, policy: Policy): seq<Event> {
    [Background(TimeOut)] + (StopFlushes(a, b, frame, policy) + LatePush(a, b)) + [Background(ReadCancelled)]
  }

  /** From every idle state an Enqueue can answer true during Stop for a frame that stays in the queue. */
  lemma StrandedFrame(w: Writer, a: nat, b: nat, frame: Bytes)
    requires Idle(w, a, b) && w.flusher.Waiting?
    ensures var es := StrandingRun(a, b, frame, w.policy);
            && Runs(w, es)
            && var t := After(w, es);
               t.flusher.Exited? && t.queue == [frame] && t.accepted == w.accepted + [frame] && t.written == w.written && !t.ioFailed
  {
    var e, f := Background(TimeOut), Background(ReadCancelled);
    One(w, e);
    var u := Step(w, e);
    LateFrame(u, a, b, frame);
    var es := StopFlushes(a, b, frame, w.policy) + LatePush(a, b);
    var v := After(u, es);
    hide Runs, After, StopFlushes, LatePush;
    RunsOn(w, [e], es);
    Then(w, [e] + es, v, f);
  }

  /** What the background thread does with one frame when no sync is due and the queue is cancelled. */
  function LastBatch(): seq<Event> {
    [Background(PopFirst)] + [Background(NoMore)] + [Background(Decide)] + [Background(Open(true))]
    + [Background(WriteBatch(true))]
  }

  function LastTurn(): seq<Event> {
    [Background(SyncBatch(false, true))] + [Background(CheckFailed)] + [Background(TakeOff)] + [Background(TimeOut)]
    + [Background(ReadCancelled)]
  }

  /** The batch of one, step by step. */
  lemma FirstSteps(w: Writer, u: Writer, frame: Bytes)
    requires w.flusher.Waiting? && w.queue == [frame] && frame != [] && !w.ioFailed && u == w.(queue := [])
    ensures Enabled(w, Background(PopFirst)) && Step(w, Background(PopFirst)) == u.(flusher := Collecting([frame]))
    ensures var v := u.(flusher := Collecting([frame]));
            Enabled(v, Background(NoMore)) && Step(v, Background(NoMore)) == u.(flusher := Deciding([frame]))
    ensures var v := u.(flusher := Deciding([frame]));
            Enabled(v, Background(Decide)) && Step(v, Background(Decide)) == u.(flusher := Locking([frame]))
    ensures var v := u.(flusher := Locking([frame]));
            Enabled(v, Background(Open(true))) && Step(v, Background(Open(true))) == u.(flusher := Writing([frame]))
  {
    assert w.queue[1..] == [];
  }

  lemma WriteThen(w: Writer, frame: Bytes)
    requires w.flusher == Writing([frame]) && frame != []
    ensures var e := Background(WriteBatch(true));
            Enabled(w, e) && Step(w, e) == w.(flusher := Syncing(1), written := w.written + [frame], dirty := true)
  {}

  lemma LastSteps(w: Writer)
    requires w.flusher == Syncing(1) && w.policy == EverySec && w.queue == [] && w.pending == 1 && w.cancelled && !w.ioFailed
    ensures var e := Background(SyncBatch(false, true)); Enabled(w, e) && Step(w, e) == w.(flusher := Checking(1))
    ensures var v := w.(flusher := Checking(1));
            Enabled(v, Background(CheckFailed)) && Step(v, Background(CheckFailed)) == w.(flusher := Counting(1))
    ensures var v := w.(flusher := Counting(1));
            Enabled(v, Background(TakeOff)) && Step(v, Background(TakeOff)) == w.(pending := 0, flusher := Waiting)
    ensures var v := w.(pending := 0, flusher := Waiting);
            Enabled(v, Background(TimeOut)) && Step(v, Background(TimeOut)) == w.(pending := 0, flusher := Empty)
    ensures var v := w.(pending := 0, flusher := Empty);
            && Enabled(v, Background(ReadCancelled))
            && Step(v, Background(ReadCancelled)) == w.(pending := 0, flusher := Exited)
  {}

  lemma LastBatchWritten(w: Writer, frame: Bytes)
    requires w.flusher.Waiting? && w.queue == [frame] && frame != [] && !w.ioFailed
    ensures Runs(w, LastBatch())
    ensures After(w, LastBatch()) == w.(queue := [], flusher := Syncing(1), written := w.written + [frame], dirty := true)
  {
    hide Runs, After, Enabled, Step;
    var e, f, g, h := Background(PopFirst), Background(NoMore), Background(Decide), Background(Open(true));
    var u := w.(queue := []);
    FirstSteps(w, u, frame);
    WriteThen(u.(flusher := Writing([frame])), frame);
    One(w, e);
    Then(w, [e], u.(flusher := Collecting([frame])), f);
    Then(w, [e] + [f], u.(flusher := Deciding([frame])), g);
    Then(w, [e] + [f] + [g], u.(flusher := Locking([frame])), h);
    Then(w, [e] + [f] + [g] + [h], u.(flusher := Writing([frame])), Background(WriteBatch(true)));
  }

  lemma LastTurnTaken(w: Writer)
    requires w.flusher == Syncing(1) && w.policy == EverySec && w.queue == [] && w.pending == 1 && w.cancelled && !w.ioFailed
    ensures Runs(w, LastTurn())
    ensures After(w, LastTurn()) == w.(pending := 0, flusher := Exited)
  {
    hide Runs, After, Enabled, Step;
    LastSteps(w);
    var e, f, g := Background(SyncBatch(false, true)), Background(CheckFailed), Background(TakeOff);
    One(w, e);
    Then(w, [e], w.(flusher := Checking(1)), f);
    Then(w, [e] + [f], w.(flusher := Counting(1)), g);
    Then(w, [e] + [f] + [g], w.(pending := 0, flusher := Waiting), Background(TimeOut));
    Then(w, [e] + [f] + [g] + [Background(TimeOut)], w.(pending := 0, flusher := Empty), Background(ReadCancelled));
  }

  lemma JoinThen(w: Writer, id: nat)
    requires At(w, id) == Joining && w.flusher.Exited?
    ensures var e := Does(id, Join); Enabled(w, e) && Step(w, e) == w.(closed := true, clients := w.clients[id := Out])
  {}

  lemma CallFlushThen(w: Writer, id: nat)
    requires At(w, id) == Out
    ensures var e := Does(id, CallFlush); Enabled(w, e) && Step(w, e) == w.(clients := w.clients[id := Draining(|w.accepted|)])
  {}

  /** Stop returns, and another client flushes. */
  function LaterFlush(a: nat, b: nat): seq<Event> { [Does(b, Join)] + [Does(a, CallFlush)] + FlushOf(a, EverySec) }

  lemma LaterFlushed(w: Writer, a: nat, b: nat)
    requires At(w, b) == Joining && At(w, a) == Out && a != b && w.flusher.Exited? && w.pending == 0 && !w.ioFailed
    requires w.policy == EverySec
    ensures Runs(w, LaterFlush(a, b))
    ensures var t := After(w, LaterFlush(a, b));
            At(t, a) == Answered(|w.accepted|, true) && t.written == w.written && t.synced == w.synced && t.dirty == w.dirty && t.closed
  {
    hide Runs, After, FlushOf, Enabled, Step;
    var e, f := Does(b, Join), Does(a, CallFlush);
    JoinThen(w, b);
    One(w, e);
    var w1 := Step(w, e);
    CallFlushThen(w1, a);
    Then(w, [e], w1, f);
    var w2 := Step(w1, f);
    FlushAlone(w2, a, |w.accepted|);
    RunsOn(w, [e] + [f], FlushOf(a, EverySec));
  }

  function UnsyncedRun(a: nat, b: nat, frame: Bytes): seq<Event> {
    (StopFlushes(a, b, frame, EverySec) + LatePush(a, b)) + LastBatch() + LastTurn() + LaterFlush(a, b)
  }

  /** The frame is written after Stop's Flush and never synced; a Flush after Stop answers true all the same. */
  lemma UnsyncedFrame(w: Writer, a: nat, b: nat, frame: Bytes)
    requires Idle(w, a, b) && w.flusher.Waiting? && w.policy == EverySec && frame != []
    ensures Runs(w, UnsyncedRun(a, b, frame))
    ensures var t := After(w, UnsyncedRun(a, b, frame));
            && At(t, a) == Answered(|w.accepted| + 1, true) && t.written == w.written + [frame] && t.synced == w.synced
            && ClosedDirty(t)
  {
    hide Runs, After, StopFlushes, LatePush, LastBatch, LastTurn, LaterFlush;
    var es := StopFlushes(a, b, frame, EverySec) + LatePush(a, b);
    LateFrame(w, a, b, frame);
    var w1 := After(w, es);
    LastBatchWritten(w1, frame);
    var w2 := After(w1, LastBatch());
    LastTurnTaken(w2);
    var w3 := After(w2, LastTurn());
    LaterFlushed(w3, a, b);
    RunsOn(w, es, LastBatch());
    RunsOn(w, es + LastBatch(), LastTurn());
    RunsOn(w, es + LastBatch() + LastTurn(), LaterFlush(a, b));
  }
}
