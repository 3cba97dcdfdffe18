/** A byte stream of command frames: how far it parses, and what replaying it does. */
module Frames {
  import opened ByteStrings
  import opened Commands
  import opened Databases
  import opened Views
  import opened VNodeIndexes
  import Resp

  // ---- splitting a stream into frames --------------------------------------------------------

  /** The whole frames at the front, the bytes they use, and whether the next bytes are malformed. */
  datatype Split = Split(frames: seq<seq<Bytes>>, used: nat, bad: bool)

  function SplitOf(d: Bytes): (s: Split)
    ensures s.used <= |d|
    decreases |d|
  {
    match Resp.Decode(d)
    case NeedMore => Split([], 0, false)
    case Malformed => Split([], 0, true)
    case Frame(tokens, consumed) => Push(tokens, consumed, SplitOf(d[consumed..]))
  }

  function Push(tokens: seq<Bytes>, consumed: nat, s: Split): Split {
    Split([tokens] + s.frames, consumed + s.used, s.bad)
  }

  /** The first frame, or why there is none. */
  lemma SplitFirst(d: Bytes)
    ensures var r := Resp.Decode(d);
            if r.Frame? then
              && 0 < r.consumed <= |d|
              && SplitOf(d) == Push(r.tokens, r.consumed, SplitOf(d[r.consumed..]))
            else SplitOf(d) == Split([], 0, r == Resp.Malformed)
  {
    hide Resp.Decode;
  }

  /** Reading a then b: b is appended to what a left over, unless a already went bad. */
  function Then(a: Split, b: Split): Split {
    if a.bad then a else Split(a.frames + b.frames, a.used + b.used, b.bad)
  }

  lemma PushThen(tokens: seq<Bytes>, consumed: nat, a: Split, b: Split)
    ensures Push(tokens, consumed, Then(a, b)) == Then(Push(tokens, consumed, a), b)
  {
    assert [tokens] + (a.frames + b.frames) == [tokens] + a.frames + b.frames;
  }

  /** Where a stream is cut into reads does not change the frames it yields. */
  lemma {:induction false} SplitAppend(a: Bytes, b: Bytes)
    ensures SplitOf(a + b) == Then(SplitOf(a), SplitOf(a[SplitOf(a).used..] + b))
    decreases |a|
  {
    hide Resp.Decode;
    if Resp.Decode(a) == Resp.NeedMore {
      assert a[0..] == a;
      assert [] + SplitOf(a + b).frames == SplitOf(a + b).frames;
    } else {
      Resp.DecodeStable(a, b);
      if Resp.Decode(a).Frame? {
        var c := Resp.Decode(a).consumed;
        var rest := SplitOf(a[c..]);
        assert (a + b)[c..] == a[c..] + b;
        SplitAppend(a[c..], b);
        assert a[c..][rest.used..] == a[SplitOf(a).used..];
        PushThen(Resp.Decode(a).tokens, c, rest, SplitOf(a[SplitOf(a).used..] + b));
      }
    }
  }

  // ---- encoded commands ------------------------------------------------------------------------

  function EncodeAll(cs: seq<Cmd>): Bytes {
    if cs == [] then [] else EncodeAll(cs[..|cs| - 1]) + Encode(cs[|cs| - 1])
  }

  function TokensAll(cs: seq<Cmd>): (ts: seq<seq<Bytes>>)
    ensures |ts| == |cs|
  {
    seq(|cs|, i requires 0 <= i < |cs| => Tokens(cs[i]))
  }

  lemma EncodeAllSnoc(cs: seq<Cmd>, c: Cmd)
    ensures EncodeAll(cs + [c]) == EncodeAll(cs) + Encode(c)
  {
    assert (cs + [c])[..|cs|] == cs;
  }

  lemma {:induction false} EncodeAllConcat(a: seq<Cmd>, b: seq<Cmd>)
    ensures EncodeAll(a + b) == EncodeAll(a) + EncodeAll(b)
    decreases |b|
  {
    hide Encode;
    if b == [] {
      assert a + b == a;
    } else {
      var n := |b| - 1;
      assert (a + b)[..|a + b| - 1] == a + b[..n];
      EncodeAllConcat(a, b[..n]);
    }
  }

  lemma EncodeAllSplit(cs: seq<Cmd>, k: nat)
    requires k <= |cs|
    ensures EncodeAll(cs) == EncodeAll(cs[..k]) + EncodeAll(cs[k..])
  {
    hide EncodeAll;
    assert cs[..k] + cs[k..] == cs;
    EncodeAllConcat(cs[..k], cs[k..]);
  }

  /** Whole frames in front of any bytes come out as exactly their commands' tokens. */
  lemma {:induction false} SplitEncoded(cs: seq<Cmd>, rest: Bytes)
    ensures SplitOf(EncodeAll(cs) + rest) == Then(Split(TokensAll(cs), |EncodeAll(cs)|, false), SplitOf(rest))
    decreases |cs|
  {
    hide Encode, Resp.Decode, Tokens;
    var s := SplitOf(rest);
    if cs == [] {
      assert EncodeAll(cs) + rest == rest;
      assert TokensAll(cs) + s.frames == s.frames;
    } else {
      var n := |cs| - 1;
      var last := Encode(cs[n]) + rest;
      assert EncodeAll(cs) + rest == EncodeAll(cs[..n]) + last;
      SplitEncoded(cs[..n], last);
      WireRoundTrip(cs[n], rest);
      assert last[|Encode(cs[n])|..] == rest;
      assert SplitOf(last) == Push(Tokens(cs[n]), |Encode(cs[n])|, s);
      assert TokensAll(cs[..n]) + ([Tokens(cs[n])] + s.frames) == TokensAll(cs) + s.frames;
    }
  }

  /** An encoded command cut short anywhere yields no frame and no error. */
  lemma CutFrame(c: Cmd, n: nat)
    requires n < |Encode(c)|
    ensures SplitOf(Encode(c)[..n]) == Split([], 0, false)
  {
    WireRoundTrip(c, []);
    assert Encode(c) + [] == Encode(c);
    Resp.ProperPrefixNeedsMore(Encode(c), n);
  }

  lemma PrefixOfPrefix(cs: seq<Cmd>, m: nat, k: nat)
    requires k <= m <= |cs|
    ensures cs[..m][..k] == cs[..k] && (k < m ==> cs[..m][..k + 1] == cs[..k + 1])
  {}

  /** How many whole frames of the encoded log fit in its first n bytes. */
  function WholeFrames(cs: seq<Cmd>, n: nat): (k: nat)
    ensures k <= |cs|
    ensures |EncodeAll(cs[..k])| <= n
    ensures k < |cs| ==> n < |EncodeAll(cs[..k + 1])|
    decreases |cs|
  {
    assert cs[..|cs|] == cs;
    if |EncodeAll(cs)| <= n then |cs|
    else
      assert cs != [];
      var m := |cs| - 1;
      var k := WholeFrames(cs[..m], n);
      PrefixOfPrefix(cs, m, k);
      k
  }

  /** The first n bytes of an encoded log: its longest whole-frame prefix and a cut frame. */
  lemma SplitPrefix(cs: seq<Cmd>, n: nat)
    requires n <= |EncodeAll(cs)|
    ensures var k := WholeFrames(cs, n);
            SplitOf(EncodeAll(cs)[..n]) == Split(TokensAll(cs[..k]), |EncodeAll(cs[..k])|, false)
  {
    hide Encode, SplitOf;
    var k := WholeFrames(cs, n);
    var head := EncodeAll(cs[..k]);
    EncodeAllSplit(cs, k);
    var tail := EncodeAll(cs)[..n][|head|..];
    assert EncodeAll(cs)[..n] == head + tail;
    SplitEncoded(cs[..k], tail);
    assert SplitOf(tail) == Split([], 0, false) by {
      if k < |cs| {
        assert cs[..k + 1] == cs[..k] + [cs[k]];
        EncodeAllSnoc(cs[..k], cs[k]);
        EncodeAllSplit(cs, k + 1);
        assert tail == Encode(cs[k])[..|tail|];
        CutFrame(cs[k], |tail|);
      } else {
        assert tail == [];
        EmptySplit();
      }
    }
    assert TokensAll(cs[..k]) + [] == TokensAll(cs[..k]);
  }

  lemma EmptySplit()
    ensures SplitOf([]) == Split([], 0, false)
  {}

  // ---- applying frames ---------------------------------------------------------------------------

  /** Why applying stopped: the frames ran out, a frame was no valid command, or applying failed. */
  datatype End = Finished | BadCommand | Rejected

  datatype Fed = Fed(end: End, db: Db, applied: nat)

  function RunTokens(db: Db, frames: seq<seq<Bytes>>): (r: Fed)
    ensures r.applied <= |frames|
    decreases |frames|
  {
    if frames == [] then Fed(Finished, db, 0)
    else
      match FromTokens(frames[0])
      case Refused(_) => Fed(BadCommand, db, 0)
      case Other(_) => Fed(Rejected, db, 0)
      case Write(c) =>
        var a := Apply(db, c);
        if !a.ok then Fed(Rejected, a.db, 0)
        else
          var r := RunTokens(a.db, frames[1..]);
          r.(applied := r.applied + 1)
  }

  lemma {:induction false} RunTokensConcat(db: Db, a: seq<seq<Bytes>>, b: seq<seq<Bytes>>)
    ensures var ra := RunTokens(db, a);
            var rb := RunTokens(ra.db, b);
            RunTokens(db, a + b) == if ra.end == Finished then rb.(applied := |a| + rb.applied) else ra
    decreases |a|
  {
    hide Apply, FromTokens;
    if a == [] {
      assert a + b == b;
    } else {
      assert (a + b)[1..] == a[1..] + b;
      match FromTokens(a[0])
      case Write(c) => RunTokensConcat(Apply(db, c).db, a[1..], b);
      case _ =>
    }
  }

  ghost predicate AllKeyed(cs: seq<Cmd>) { forall i | 0 <= i < |cs| :: HasKey(cs[i]) }

  /** Frames of keyed commands do what the commands do. */
  lemma {:induction false} RunTokensOf(db: Db, cs: seq<Cmd>)
    requires AllKeyed(cs)
    ensures var r := Run(db, cs);
            RunTokens(db, TokensAll(cs)) == Fed(if r.ok then Finished else Rejected, r.db, r.applied)
    decreases |cs|
  {
    hide Apply, FromTokens, Tokens;
    if cs != [] {
      assert HasKey(cs[0]);
      TokensRoundTrip(cs[0]);
      assert TokensAll(cs)[1..] == TokensAll(cs[1..]);
      RunTokensOf(Apply(db, cs[0]).db, cs[1..]);
    }
  }

  // ---- WalManager::Replay --------------------------------------------------------------------------

  datatype Replayed = Replayed(ok: bool, db: Db, applied: nat)

  /** Malformed bytes, unfinished frames and bad commands end a replay quietly; only a command
      that cannot be applied fails it. */
  function ReplayOf(db: Db, file: Bytes): Replayed {
    var r := RunTokens(db, SplitOf(file).frames);
    Replayed(r.end != Rejected, r.db, r.applied)
  }

  /** A log cut at any byte replays as exactly its longest whole-frame prefix. */
  lemma CrashPrefix(db: Db, cs: seq<Cmd>, n: nat)
    requires AllKeyed(cs) && n <= |EncodeAll(cs)|
    ensures var k := WholeFrames(cs, n);
            var r := Run(db, cs[..k]);
            ReplayOf(db, EncodeAll(cs)[..n]) == Replayed(r.ok, r.db, r.applied)
  {
    hide SplitOf, RunTokens, Run;
    SplitPrefix(cs, n);
    RunTokensOf(db, cs[..WholeFrames(cs, n)]);
  }

  /** A whole log replays as a whole. */
  lemma ReplayWhole(db: Db, cs: seq<Cmd>)
    requires AllKeyed(cs)
    ensures var r := Run(db, cs);
            ReplayOf(db, EncodeAll(cs)) == Replayed(r.ok, r.db, r.applied)
  {
    hide SplitOf, RunTokens, Run, EncodeAll;
    CrashPrefix(db, cs, |EncodeAll(cs)|);
    var k := WholeFrames(cs, |EncodeAll(cs)|);
    assert cs[..k] == cs;
    assert EncodeAll(cs)[..|EncodeAll(cs)|] == EncodeAll(cs);
  }

  // ---- ReplicationSlave::ConsumeStreamFrames --------------------------------------------------------

  /** `used` bytes were consumed; on failure that count is reported as 0 although the frames
      before the failure have been applied. */
  datatype Consumed = Consumed(ok: bool, db: Db, used: nat)

  function ConsumeStream(db: Db, d: Bytes): (r: Consumed)
    ensures r.used <= |d|
  {
    var s := SplitOf(d);
    var r := RunTokens(db, s.frames);
    var ok := r.end == Finished && !s.bad;
    Consumed(ok, r.db, if ok then s.used else 0)
  }

  /** Two reads of a stream do what one read of both does, and a failure stays a failure. */
  lemma ConsumeAppend(db: Db, a: Bytes, b: Bytes)
    ensures var ra := ConsumeStream(db, a);
            var rb := ConsumeStream(ra.db, a[ra.used..] + b);
            var r := ConsumeStream(db, a + b);
            if ra.ok then r == Consumed(rb.ok, rb.db, if rb.ok then ra.used + rb.used else 0)
            else !r.ok && r.db == ra.db
  {
    hide SplitOf, RunTokens;
    SplitAppend(a, b);
    var sb := SplitOf(a[SplitOf(a).used..] + b);
    RunTokensConcat(db, SplitOf(a).frames, sb.frames);
  }

  // ---- what stops a replay, and what stops a stream -------------------------------------------------------------

  function Onwards(n: nat, r: Fed): Fed { r.(applied := n + r.applied) }

  lemma TokensFirst(db: Db, tokens: seq<Bytes>, rest: seq<seq<Bytes>>)
    ensures RunTokens(db, [tokens] + rest)
         == var r := FromTokens(tokens);
            if r.Refused? then Fed(BadCommand, db, 0)
            else if r.Other? || !Apply(db, r.cmd).ok then Fed(Rejected, if r.Other? then db else Apply(db, r.cmd).db, 0)
            else Onwards(1, RunTokens(Apply(db, r.cmd).db, rest))
  {
    hide Apply, FromTokens;
    assert ([tokens] + rest)[1..] == rest;
  }

  /** Behind commands that can be applied, bytes that are no frame: a replay ends quietly whatever they are, a
      stream waits if they may become a frame and fails if they are refused. */
  lemma EndsBehind(db: Db, cs: seq<Cmd>, d: Bytes)
    requires AllKeyed(cs) && Run(db, cs).ok && !Resp.Decode(d).Frame?
    ensures ReplayOf(db, EncodeAll(cs) + d) == Replayed(true, Run(db, cs).db, |cs|)
    ensures ConsumeStream(db, EncodeAll(cs) + d)
         == if Resp.Decode(d) == Resp.NeedMore then Consumed(true, Run(db, cs).db, |EncodeAll(cs)|)
            else Consumed(false, Run(db, cs).db, 0)
  {
    hide RunTokens, Run, EncodeAll, TokensAll, Resp.Decode;
    SplitEncoded(cs, d);
    RunTokensOf(db, cs);
    assert TokensAll(cs) + [] == TokensAll(cs);
  }

  lemma StopTokens(db: Db, cs: seq<Cmd>, t: seq<Bytes>, more: seq<seq<Bytes>>)
    requires AllKeyed(cs) && Run(db, cs).ok
    requires FromTokens(t).Write? ==> !Apply(Run(db, cs).db, FromTokens(t).cmd).ok
    ensures RunTokens(db, TokensAll(cs) + ([t] + more)) ==
            Fed(if FromTokens(t).Refused? then BadCommand else Rejected,
                if FromTokens(t).Write? then Apply(Run(db, cs).db, FromTokens(t).cmd).db else Run(db, cs).db, |cs|)
  {
    hide RunTokens, Run, TokensAll, FromTokens, Apply;
    RunTokensOf(db, cs);
    TokensFirst(Run(db, cs).db, t, more);
    RunTokensConcat(db, TokensAll(cs), [t] + more);
  }

  lemma StopFrames(cs: seq<Cmd>, t: seq<Bytes>, rest: Bytes)
    requires AllKeyed(cs)
    ensures var s := SplitOf(EncodeAll(cs) + (Resp.Array(t) + rest));
            s.frames == TokensAll(cs) + ([t] + SplitOf(rest).frames)
  {
    hide EncodeAll, TokensAll, Resp.Decode, Resp.Array;
    var d := Resp.Array(t) + rest;
    SplitEncoded(cs, d);
    Resp.ArrayRoundTrip(t, rest);
    SplitFirst(d);
    assert d[|Resp.Array(t)|..] == rest;
  }

  /** Behind commands that can be applied, a frame that is refused or cannot be applied: a replay ends quietly if
      it is no valid request, and fails if it is no write or cannot be applied; a stream fails in any case. */
  lemma StopsAt(db: Db, cs: seq<Cmd>, t: seq<Bytes>, rest: Bytes)
    requires AllKeyed(cs) && Run(db, cs).ok
    requires FromTokens(t).Write? ==> !Apply(Run(db, cs).db, FromTokens(t).cmd).ok
    ensures var d := EncodeAll(cs) + (Resp.Array(t) + rest);
            var left := if FromTokens(t).Write? then Apply(Run(db, cs).db, FromTokens(t).cmd).db else Run(db, cs).db;
            ReplayOf(db, d) == Replayed(FromTokens(t).Refused?, left, |cs|) && ConsumeStream(db, d) == Consumed(false, left, 0)
  {
    hide RunTokens, Run, EncodeAll, TokensAll, SplitOf, Resp.Array, FromTokens, Apply;
    StopFrames(cs, t, rest);
    StopTokens(db, cs, t, SplitOf(rest).frames);
  }
}
