/** ReplicationBacklog: the last bytes of the replication stream, in a ring. */
module ReplicationBacklogs {
  import opened ByteStrings

  const DEFAULT_CAPACITY: nat := 16 * 1024 * 1024

  function Min(a: nat, b: nat): nat { if a < b then a else b }

  function Max(a: nat, b: nat): nat { if a < b then b else a }

  /** Where the retained range starts once room for `need` more bytes has been made. */
  function DropBase(base: nat, tip: nat, cap: nat, need: nat): (b: nat)
    requires base <= tip && 0 < need
    ensures base <= b <= tip
    ensures need <= cap ==> tip - b + need <= cap
    ensures tip - base + need <= cap ==> b == base
    decreases tip - base
  {
    var used := tip - base;
    if used + need > cap && used > 0
    then DropBase(base + Min(used, Max(need, cap / 8)), tip, cap, need)
    else base
  }

  /** The start of the retained range after a frame of n bytes has been fed. */
  function BaseAfterFeed(base: nat, tip: nat, cap: nat, n: nat): (b: nat)
    requires base <= tip
    ensures base <= b <= tip + n
    ensures tip - base <= cap ==> tip + n - b <= cap
  {
    if n == 0 then base else if n > cap then tip + n else DropBase(base, tip, cap, n)
  }

  /** How much history a frame costs. A frame that fits in the free room costs none. Any other that fits in the ring
      costs its own length or an eighth of the ring, whichever is more, at one stroke; so whoever is behind by no more
      than the rest of the ring keeps a retained offset. A frame longer than the ring costs everything. */
  lemma Retention(base: nat, tip: nat, cap: nat, n: nat, o: nat)
    requires base <= tip <= base + cap && base <= o <= tip
    ensures var b := BaseAfterFeed(base, tip, cap, n);
            && (tip - base + n <= cap ==> b == base)
            && (tip - base + n > cap >= n ==> b == base + Min(tip - base, Max(n, cap / 8)))
            && (n > cap ==> b == tip + n)
            && (n <= cap && tip + n - o <= cap - Max(n, cap / 8) ==> b <= o)
  {
    if tip - base + n > cap >= n {
      var drop := Min(tip - base, Max(n, cap / 8));
      DropsOnce(base, tip, cap, n, drop);
      DropsNoMore(base + drop, tip, cap, n);
    }
  }

  /** Ring positions: one addition never goes twice round the ring. */
  function Slot(x: nat, cap: nat): (s: nat)
    requires x < 2 * cap
    ensures s < cap
  {
    if x < cap then x else x - cap
  }

  function Wrap(x: nat, cap: nat): (s: nat)
    requires cap > 0
    ensures s < cap
  {
    x % cap
  }

  lemma DropsOnce(base: nat, tip: nat, cap: nat, need: nat, drop: nat)
    requires base < tip && 0 < need && tip - base + need > cap && drop == Min(tip - base, Max(need, cap / 8))
    ensures DropBase(base + drop, tip, cap, need) == DropBase(base, tip, cap, need)
  {}

  lemma DropsNoMore(base: nat, tip: nat, cap: nat, need: nat)
    requires base <= tip && 0 < need && (tip - base + need <= cap || base == tip)
    ensures DropBase(base, tip, cap, need) == base
  {}

  lemma SlotIsMod(x: nat, cap: nat)
    requires x < 2 * cap
    ensures Wrap(x, cap) == Slot(x, cap)
  {
    if x < cap {
      assert x / cap == 0;
    } else {
      assert (x - cap) / cap == 0;
      assert x / cap == 1;
    }
  }

  lemma Joins(log: Bytes, start: nat, at: nat, n: nat)
    requires start <= at && at + n <= |log|
    ensures log[start..at] + log[at..at + n] == log[start..at + n]
  {}

  /** After n slots without passing the end, the next one. */
  lemma NextSlot(x: nat, n: nat, cap: nat, pos: nat)
    requires x < 2 * cap && pos == Slot(x, cap) && pos + n <= cap && n > 0
    ensures x + n < 2 * cap ==> Wrap(pos + n, cap) == Slot(x + n, cap)
  {
    SlotIsMod(pos + n, cap);
  }

  /** The ring, read from head on, holds log[base..]. */
  ghost predicate RingHolds(ring: Bytes, head: nat, base: nat, log: Bytes) {
    && head < |ring|
    && base <= |log| <= base + |ring|
    && forall i | base <= i < |log| :: ring[Slot(head + (i - base), |ring|)] == log[i]
  }

  /** The ring after two copies: up to its end, then from its beginning. */
  function Overwritten(ring: Bytes, pos: nat, bytes: Bytes): (r: Bytes)
    requires pos < |ring| && |bytes| <= |ring|
    ensures |r| == |ring|
  {
    seq(|ring|, k requires 0 <= k < |ring| =>
      if pos <= k < pos + |bytes| then bytes[k - pos]
      else if k + |ring| < pos + |bytes| then bytes[k + |ring| - pos]
      else ring[k])
  }

  lemma AppendHolds(ring: Bytes, head: nat, base: nat, log: Bytes, bytes: Bytes)
    requires RingHolds(ring, head, base, log) && |log| - base + |bytes| <= |ring|
    ensures RingHolds(Overwritten(ring, Slot(head + (|log| - base), |ring|), bytes), head, base, log + bytes)
  {}

  lemma HeadInside(ring: Bytes, head: nat, base: nat, log: Bytes)
    requires RingHolds(ring, head, base, log)
    ensures head < |ring| && base <= |log| <= base + |ring|
  {}

  lemma DropHolds(ring: Bytes, head: nat, base: nat, log: Bytes, drop: nat)
    requires RingHolds(ring, head, base, log) && drop <= |log| - base
    ensures RingHolds(ring, Slot(head + drop, |ring|), base + drop, log)
  {
    forall i | base + drop <= i < |log|
      ensures ring[Slot(Slot(head + drop, |ring|) + (i - (base + drop)), |ring|)] == log[i]
    {
      assert Slot(Slot(head + drop, |ring|) + (i - (base + drop)), |ring|) == Slot(head + (i - base), |ring|);
    }
  }

  /** A run of ring bytes that does not pass the ring's end is a run of the log. */
  lemma RunHolds(ring: Bytes, head: nat, base: nat, log: Bytes, at: nat, n: nat)
    requires RingHolds(ring, head, base, log) && base <= at && at + n <= |log|
    requires n > 0 ==> Slot(head + (at - base), |ring|) + n <= |ring|
    ensures n > 0 ==> ring[Slot(head + (at - base), |ring|)..][..n] == log[at..at + n]
  {
    if n > 0 {
      var pos := Slot(head + (at - base), |ring|);
      forall k | 0 <= k < n ensures ring[pos..][..n][k] == log[at..at + n][k] {
        assert Slot(head + (at + k - base), |ring|) == pos + k;
        assert log[at..at + n][k] == log[at + k];
      }
    }
  }

  class ReplicationBacklog {
    const buf: array<byte>
    var head: nat   // physical index of logical offset base
    var base: nat
    var tip: nat
    ghost var log: Bytes   // every byte ever fed

    ghost predicate Valid()
      reads this, buf
    {
      tip == |log| && RingHolds(buf[..], head, base, log)
    }

    constructor (capacity: nat)
      ensures Valid() && fresh(buf)
      ensures log == [] && base == 0
      ensures buf.Length == if capacity == 0 then DEFAULT_CAPACITY else capacity
    {
      buf := new byte[if capacity == 0 then DEFAULT_CAPACITY else capacity];
      head, base, tip, log := 0, 0, 0, [];
    }

    method FeedEncoded(frame: Bytes) returns (ok: bool)
      requires Valid()
      modifies this, buf
      ensures Valid() && ok
      ensures log == old(log) + frame
      ensures base == BaseAfterFeed(old(base), old(tip), buf.Length, |frame|)
    {
      if frame == [] {
        return true;
      }
      if |frame| > buf.Length {
        head := 0;
        base := tip;
        tip := tip + |frame|;
        base := tip;
        log := log + frame;
        return true;
      }
      DropToMakeSpace(|frame|);
      AppendHolds(buf[..], head, base, log, frame);
      AppendBytes(frame);
      tip := tip + |frame|;
      log := log + frame;
      return true;
    }

    method Contains(offset: nat) returns (r: bool)
      requires Valid()
      ensures r == (base <= offset <= |log|)
    {
      r := offset >= base && offset <= tip;
    }

    /** Exactly the fed bytes of the range, or false when it is not all retained. */
    method CopyRange(start: nat, end: nat) returns (ok: bool, out: Bytes)
      requires Valid()
      ensures ok == (base <= start <= end <= |log|)
      ensures ok ==> out == log[start..end]
    {
      out := [];
      if end < start || start < base || end > tip {
        return false, out;
      }
      var len := end - start;
      if len == 0 {
        return true, out;
      }
      hide RingHolds, Slot, Wrap;
      var cap := buf.Length;
      HeadInside(buf[..], head, base, log);
      SlotIsMod(start - base + head, cap);
      var pos := Wrap(start - base + head, cap);
      var remaining := len;
      while remaining > 0
        invariant 0 <= remaining <= len && 0 <= pos < cap
        invariant out == log[start..end - remaining]
        invariant remaining > 0 ==> pos == Slot(head + (end - remaining - base), cap)
      {
        var n := Min(remaining, cap - pos);
        ghost var at := end - remaining;
        var run := CopyRun(at, n, pos);
        Joins(log, start, at, n);
        NextSlot(head + (at - base), n, cap, pos);
        out := out + run;
        remaining := remaining - n;
        pos := Wrap(pos + n, cap);
      }
      return true, out;
    }

    /** Bytes of the ring up to its end at most. */
    method CopyRun(ghost at: nat, n: nat, pos: nat) returns (run: Bytes)
      requires Valid() && base <= at && at + n <= |log| && 0 < n && pos + n <= buf.Length
      requires head < buf.Length && at - base < buf.Length && pos == Slot(head + (at - base), buf.Length)
      ensures run == log[at..at + n]
    {
      hide RingHolds, Slot;
      RunHolds(buf[..], head, base, log, at, n);
      run := buf[pos..pos + n];
      assert run == buf[..][pos..][..n];
    }

    /** Two copies: up to the end of the ring, then from its beginning. */
    method AppendBytes(bytes: Bytes)
      requires Valid() && tip - base + |bytes| <= buf.Length
      modifies buf
      ensures buf[..] == Overwritten(old(buf[..]), Slot(head + (tip - base), buf.Length), bytes)
    {
      var cap := buf.Length;
      var used := tip - base;
      SlotIsMod(head + used, cap);
      var writePos := Wrap(head + used, cap);
      var first := Min(|bytes|, cap - writePos);
      forall k | writePos <= k < writePos + first {
        buf[k] := bytes[k - writePos];
      }
      if |bytes| > first {
        forall k | 0 <= k < |bytes| - first {
          buf[k] := bytes[first + k];
        }
      }
    }

    method DropToMakeSpace(need: nat)
      requires Valid() && 0 < need
      modifies this`head, this`base
      ensures Valid() && base == DropBase(old(base), tip, buf.Length, need)
    {
      hide RingHolds, Slot, Wrap, DropBase;
      var cap := buf.Length;
      var used := tip - base;
      HeadInside(buf[..], head, base, log);
      while used + need > cap && used > 0
        invariant Valid() && used == tip - base && head < cap && base <= tip
        invariant DropBase(base, tip, cap, need) == DropBase(old(base), tip, cap, need)
      {
        var drop := Min(used, Max(need, cap / 8));
        DropsOnce(base, tip, cap, need, drop);
        SlotIsMod(head + drop, cap);
        DropHolds(buf[..], head, base, log, drop);
        HeadInside(buf[..], Slot(head + drop, cap), base + drop, log);
        head := Wrap(head + drop, cap);
        base := base + drop;
        used := tip - base;
      }
      DropsNoMore(base, tip, cap, need);
    }
  }
}
