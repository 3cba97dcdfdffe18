/** ProtocolExecutor: the loop that turns whatever has arrived on a connection into requests and replies. */
module ProtocolExecutors {
  import opened ByteStrings
  import opened Frames
  import Resp
  import RespErrors

  /** The server behind the connection: any function of its state and a request's tokens. */
  type Server<!S> = (S, seq<Bytes>) -> (S, Bytes)

  const PROTOCOL_ERROR: Bytes :=
    [45, 69, 82, 82, 32, 112, 114, 111, 116, 111, 99, 111, 108, 32, 101, 114, 114, 111, 114, 13, 10]

  datatype Served<S> = Served(state: S, replies: Bytes)

  /** Requests served in order, their replies one after the other. */
  function ServeAll<S>(f: Server<S>, s: S, frames: seq<seq<Bytes>>): Served<S>
    decreases |frames|
  {
    if frames == [] then Served(s, [])
    else
      var (t, reply) := f(s, frames[0]);
      var rest := ServeAll(f, t, frames[1..]);
      Served(rest.state, reply + rest.replies)
  }

  lemma {:induction false} ServeConcat<S>(f: Server<S>, s: S, a: seq<seq<Bytes>>, b: seq<seq<Bytes>>)
    ensures var first := ServeAll(f, s, a);
            var rest := ServeAll(f, first.state, b);
            ServeAll(f, s, a + b) == Served(rest.state, first.replies + rest.replies)
    decreases |a|
  {
    if a == [] {
      assert a + b == b;
      assert [] + ServeAll(f, s, b).replies == ServeAll(f, s, b).replies;
    } else {
      assert (a + b)[1..] == a[1..] + b;
      var (t, reply) := f(s, a[0]);
      ServeConcat(f, t, a[1..], b);
      var first := ServeAll(f, t, a[1..]);
      var rest := ServeAll(f, first.state, b);
      assert reply + (first.replies + rest.replies) == (reply + first.replies) + rest.replies;
    }
  }

  /** A connection: the server's state, the unread bytes, and everything written to the client. */
  datatype Conn<S> = Conn(state: S, input: Bytes, out: Bytes)

  function Errors(n: nat): Bytes { if n == 0 then [] else Errors(n - 1) + PROTOCOL_ERROR }

  /** One round: every whole frame is served; malformed bytes are reported and stay where they are. */
  function Readable<S>(f: Server<S>, c: Conn<S>): Conn<S> {
    var s := SplitOf(c.input);
    var r := ServeAll(f, c.state, s.frames);
    Conn(r.state, c.input[s.used..], c.out + r.replies + (if s.bad then PROTOCOL_ERROR else []))
  }

  function Receive<S>(c: Conn<S>, chunk: Bytes): Conn<S> { c.(input := c.input + chunk) }

  /** The connection after the chunks have been read one by one. */
  function ReadAll<S>(f: Server<S>, c: Conn<S>, chunks: seq<Bytes>): Conn<S>
    decreases |chunks|
  {
    if chunks == [] then c else Readable(f, Receive(ReadAll(f, c, chunks[..|chunks| - 1]), chunks[|chunks| - 1]))
  }

  /** After malformed bytes every further read only reports them again. */
  lemma BadStays(a: Bytes, b: Bytes)
    requires SplitOf(a).bad
    ensures SplitOf(a[SplitOf(a).used..] + b) == Split([], 0, true)
    decreases |a|
  {
    hide Resp.Decode;
    if Resp.Decode(a).Frame? {
      var c := Resp.Decode(a).consumed;
      BadStays(a[c..], b);
      assert a[c..][SplitOf(a[c..]).used..] == a[SplitOf(a).used..];
    } else {
      Resp.DecodeStable(a, b);
      assert a[0..] == a;
    }
  }

  /** How many of the reads reported an error. */
  function Reports(chunks: seq<Bytes>): nat
    decreases |chunks|
  {
    if chunks == [] then 0
    else Reports(chunks[..|chunks| - 1]) + (if SplitOf(Joined(chunks)).bad then 1 else 0)
  }

  /** However a client's bytes are cut into reads, the same requests are served in the same order with
      the same replies, and the same bytes are left over. Only the protocol error is repeated, once for
      every read from the one that completed the malformed bytes on. */
  lemma {:induction false} Fragmentation<S>(f: Server<S>, s: S, chunks: seq<Bytes>)
    ensures var c := ReadAll(f, Conn(s, [], []), chunks);
            var split := SplitOf(Joined(chunks));
            var r := ServeAll(f, s, split.frames);
            c == Conn(r.state, Joined(chunks)[split.used..], r.replies + Errors(Reports(chunks)))
    decreases |chunks|
  {
    hide SplitOf, ServeAll;
    if chunks == [] {
      NothingRead(f, s);
    } else {
      var n := |chunks| - 1;
      var a, b := Joined(chunks[..n]), chunks[n];
      Fragmentation(f, s, chunks[..n]);
      ReportsBad(chunks[..n]);
      OneMoreRead(f, s, a, b, Errors(Reports(chunks[..n])), Reports(chunks[..n]));
    }
  }

  lemma NothingRead<S>(f: Server<S>, s: S)
    ensures SplitOf([]) == Split([], 0, false) && ServeAll(f, s, []) == Served(s, [])
  {}

  lemma OneMoreRead<S>(f: Server<S>, s: S, a: Bytes, b: Bytes, errors: Bytes, n: nat)
    requires errors == Errors(n) && (n > 0 ==> SplitOf(a).bad)
    ensures var before := SplitOf(a);
            var first := ServeAll(f, s, before.frames);
            var after := SplitOf(a + b);
            var r := ServeAll(f, s, after.frames);
            Readable(f, Conn(first.state, a[before.used..] + b, first.replies + errors))
            == Conn(r.state, (a + b)[after.used..], r.replies + Errors(n + if after.bad then 1 else 0))
  {
    hide SplitOf, ServeAll, Errors;
    SplitAppend(a, b);
    ErrorsOne();
    if SplitOf(a).bad {
      BadStays(a, b);
      BadRead(f, s, a, b, SplitOf(a), n);
    } else {
      GoodRead(f, s, a, b, SplitOf(a), SplitOf(a[SplitOf(a).used..] + b));
    }
  }

  lemma BadRead<S>(f: Server<S>, s: S, a: Bytes, b: Bytes, before: Split, n: nat)
    requires before.bad && before.used <= |a| && SplitOf(a[before.used..] + b) == Split([], 0, true)
    ensures var first := ServeAll(f, s, before.frames);
            Readable(f, Conn(first.state, a[before.used..] + b, first.replies + Errors(n)))
            == Conn(first.state, (a + b)[before.used..], first.replies + Errors(n + 1))
  {
    hide SplitOf, ServeAll;
    var first := ServeAll(f, s, before.frames);
    NothingRead(f, first.state);
    assert (a[before.used..] + b)[0..] == (a + b)[before.used..];
    assert first.replies + Errors(n) + [] + PROTOCOL_ERROR == first.replies + (Errors(n) + PROTOCOL_ERROR);
  }

  lemma GoodRead<S>(f: Server<S>, s: S, a: Bytes, b: Bytes, before: Split, rest: Split)
    requires before.used <= |a| && rest == SplitOf(a[before.used..] + b)
    ensures var first := ServeAll(f, s, before.frames);
            var r := ServeAll(f, s, before.frames + rest.frames);
            Readable(f, Conn(first.state, a[before.used..] + b, first.replies + []))
            == Conn(r.state, (a + b)[before.used + rest.used..], r.replies + (if rest.bad then PROTOCOL_ERROR else []))
  {
    hide SplitOf, ServeAll;
    var first := ServeAll(f, s, before.frames);
    ServeConcat(f, s, before.frames, rest.frames);
    assert (a[before.used..] + b)[rest.used..] == (a + b)[before.used + rest.used..];
    assert first.replies + [] == first.replies;
  }

  /** Once a read has reported malformed bytes, everything read stays malformed. */
  lemma {:induction false} ReportsBad(chunks: seq<Bytes>)
    ensures Reports(chunks) > 0 ==> SplitOf(Joined(chunks)).bad
    decreases |chunks|
  {
    hide SplitOf;
    if chunks != [] {
      var n := |chunks| - 1;
      ReportsBad(chunks[..n]);
      SplitAppend(Joined(chunks[..n]), chunks[n]);
    }
  }

  lemma ErrorsOne()
    ensures Errors(0) == [] && Errors(1) == PROTOCOL_ERROR
  {
    assert Errors(0) + PROTOCOL_ERROR == PROTOCOL_ERROR;
    assert Errors(1) == Errors(0) + PROTOCOL_ERROR;
  }

  /** The client sees exactly what one read of everything would have given if and only if what was
      read before the last read is well formed as far as it goes. */
  lemma FragmentsInvisible<S>(f: Server<S>, s: S, chunks: seq<Bytes>)
    requires chunks != []
    ensures ReadAll(f, Conn(s, [], []), chunks) == ReadAll(f, Conn(s, [], []), [Joined(chunks)])
            <==> !SplitOf(Joined(chunks[..|chunks| - 1])).bad
  {
    hide SplitOf, ServeAll, ReadAll;
    var before := chunks[..|chunks| - 1];
    Fragmentation(f, s, chunks);
    Fragmentation(f, s, [Joined(chunks)]);
    JoinedOne(Joined(chunks));
    ErrorsDiffer(Reports(chunks), Reports([Joined(chunks)]));
    ReportsBad(before);
    NothingRead(f, s);
    assert [Joined(chunks)][..0] == [];
  }

  lemma {:induction false} ErrorsSize(n: nat)
    ensures |Errors(n)| == n * |PROTOCOL_ERROR|
  {
    if n > 0 {
      ErrorsSize(n - 1);
    }
  }

  lemma ErrorsDiffer(m: nat, n: nat)
    ensures Errors(m) == Errors(n) <==> m == n
  {
    ErrorsSize(m);
    ErrorsSize(n);
    assert |PROTOCOL_ERROR| == 21;
  }

  // ---- what a client sends, and what it is answered ---------------------------------------------------------

  /** Requests as a client writes them. */
  function Arrays(rs: seq<seq<Bytes>>): Bytes { if rs == [] then [] else Resp.Array(rs[0]) + Arrays(rs[1..]) }

  lemma FirstArray(t: seq<Bytes>, more: Bytes)
    ensures SplitOf(Resp.Array(t) + more) == Push(t, |Resp.Array(t)|, SplitOf(more))
  {
    hide Resp.Decode, Resp.Array;
    Resp.ArrayRoundTrip(t, more);
    assert (Resp.Array(t) + more)[|Resp.Array(t)|..] == more;
  }

  lemma {:induction false} SplitArrays(rs: seq<seq<Bytes>>, rest: Bytes)
    ensures SplitOf(Arrays(rs) + rest) == Then(Split(rs, |Arrays(rs)|, false), SplitOf(rest))
    decreases |rs|
  {
    hide SplitOf, Resp.Array;
    var s := SplitOf(rest);
    if rs == [] {
      assert Arrays(rs) + rest == rest;
      assert rs + s.frames == s.frames;
    } else {
      var more := Arrays(rs[1..]) + rest;
      assert Arrays(rs) + rest == Resp.Array(rs[0]) + more;
      FirstArray(rs[0], more);
      SplitArrays(rs[1..], rest);
      assert [rs[0]] + (rs[1..] + s.frames) == rs + s.frames;
    }
  }

  /** Any requests in front of bytes that are no frame: each request is answered in order, what follows stays
      in the buffer, and the protocol error ends the output exactly if what follows is refused. Which
      bytes are refused: see RespErrors. */
  lemma RequestsThenRest<S>(f: Server<S>, s: S, rs: seq<seq<Bytes>>, rest: Bytes, out: Bytes)
    requires !Resp.Decode(rest).Frame?
    ensures var r := ServeAll(f, s, rs);
            Readable(f, Conn(s, Arrays(rs) + rest, out))
            == Conn(r.state, rest, out + r.replies + (if Resp.Decode(rest) == Resp.Malformed then PROTOCOL_ERROR else []))
  {
    hide ServeAll, Arrays;
    SplitArrays(rs, rest);
    assert rs + [] == rs;
    assert (Arrays(rs) + rest)[|Arrays(rs)|..] == rest;
  }

  /** So bytes that begin no array are reported by the read that brings them, after everything before them has
      been answered. */
  lemma JunkReported<S>(f: Server<S>, s: S, rs: seq<seq<Bytes>>, junk: Bytes, out: Bytes)
    requires junk != [] && junk[0] != STAR
    ensures var r := ServeAll(f, s, rs);
            Readable(f, Conn(s, Arrays(rs) + junk, out)) == Conn(r.state, junk, out + r.replies + PROTOCOL_ERROR)
  {
    hide ServeAll, Arrays, Readable;
    RespErrors.Refused(junk);
    RequestsThenRest(f, s, rs, junk, out);
  }

  // ---- the objects -----------------------------------------------------------------------------------------

  class MessageBuffer {
    var buf: Bytes

    constructor ()
      ensures buf == []
    {
      buf := [];
    }

    method Append(bytes: Bytes)
      modifies this
      ensures buf == old(buf) + bytes
    {
      buf := buf + bytes;
    }

    method ReadCompleted(n: nat)
      modifies this
      ensures buf == if n <= |old(buf)| then old(buf)[n..] else []
    {
      if n >= |buf| {
        buf := [];
      } else if n > 0 {
        buf := buf[n..];
      }
    }
  }

  class ProtocolExecutor<!S(!new)> {
    const dispatch: Server<S>
    const input: MessageBuffer
    var state: S
    var out: Bytes

    ghost function Model(): Conn<S>
      reads this, input
    {
      Conn(state, input.buf, out)
    }

    constructor (dispatch: Server<S>, input: MessageBuffer, state: S)
      ensures this.dispatch == dispatch && this.input == input && Model() == Conn(state, input.buf, [])
    {
      this.dispatch, this.input, this.state, this.out := dispatch, input, state, [];
    }

    method Flush(batch: Bytes)
      modifies this`out
      ensures out == old(out) + batch
    {
      if batch != [] {
        out := out + batch;
      }
    }

    /** Parses and serves until what is left is no whole frame; always returns. */
    method OnBufferReadable()
      modifies this`state, this`out, input
      ensures Model() == Readable(dispatch, old(Model()))
    {
      hide SplitOf, ServeAll, Resp.Decode, Ongoing, Push;
      var batch: Bytes := [];
      ghost var start := old(Model());
      Begins(dispatch, start);
      while true
        invariant out == start.out
        invariant |input.buf| <= |start.input| && input.buf == start.input[|start.input| - |input.buf|..]
        invariant Ongoing(dispatch, start, state, batch, input.buf)
        decreases |input.buf|
      {
        ghost var now := input.buf;
        SplitFirst(now);
        var frame := Resp.DecodeArrayOfBulk(input.buf);
        if frame == Resp.NeedMore {
          RoundEnds(dispatch, start, state, batch, now);
          Flush(batch);
          return;
        }
        if frame == Resp.Malformed {
          RoundEnds(dispatch, start, state, batch, now);
          Flush(batch);
          out := out + PROTOCOL_ERROR;
          return;
        }
        input.ReadCompleted(frame.consumed);
        assert now[frame.consumed..] == start.input[|start.input| - |input.buf|..];
        GoesOn(dispatch, start, state, batch, now);
        var (t, reply) := dispatch(state, frame.tokens);
        state := t;
        if reply != [] {
          batch := batch + reply;
        } else {
          assert batch + reply == batch;
        }
      }
    }
  }

  /** Serving the rest of the buffer after this much would end the same way. */
  ghost predicate Ongoing<S>(f: Server<S>, start: Conn<S>, state: S, batch: Bytes, buf: Bytes) {
    var r := ServeAll(f, state, SplitOf(buf).frames);
    && ServeAll(f, start.state, SplitOf(start.input).frames) == Served(r.state, batch + r.replies)
    && SplitOf(start.input).bad == SplitOf(buf).bad
    && |start.input| - SplitOf(start.input).used == |buf| - SplitOf(buf).used
  }

  lemma Begins<S>(f: Server<S>, start: Conn<S>)
    ensures Ongoing(f, start, start.state, [], start.input)
  {
    hide SplitOf, ServeAll;
    var r := ServeAll(f, start.state, SplitOf(start.input).frames);
    assert [] + r.replies == r.replies;
  }

  lemma GoesOn<S>(f: Server<S>, start: Conn<S>, state: S, batch: Bytes, buf: Bytes)
    requires Ongoing(f, start, state, batch, buf) && Resp.Decode(buf).Frame?
    ensures var frame := Resp.Decode(buf);
            var (t, reply) := f(state, frame.tokens);
            frame.consumed <= |buf| && Ongoing(f, start, t, batch + reply, buf[frame.consumed..])
  {
    hide SplitOf, ServeAll, Resp.Decode;
    SplitFirst(buf);
    var frame := Resp.Decode(buf);
    var rest := SplitOf(buf[frame.consumed..]);
    ServeFirst(f, state, frame.tokens, rest.frames);
    var (t, reply) := f(state, frame.tokens);
    var r := ServeAll(f, t, rest.frames);
    assert batch + (reply + r.replies) == (batch + reply) + r.replies;
  }

  lemma ServeFirst<S>(f: Server<S>, s: S, tokens: seq<Bytes>, rest: seq<seq<Bytes>>)
    ensures var (t, reply) := f(s, tokens);
            var r := ServeAll(f, t, rest);
            ServeAll(f, s, [tokens] + rest) == Served(r.state, reply + r.replies)
  {
    assert ([tokens] + rest)[1..] == rest;
  }

  lemma RoundEnds<S>(f: Server<S>, start: Conn<S>, state: S, batch: Bytes, buf: Bytes)
    requires Ongoing(f, start, state, batch, buf) && SplitOf(buf).frames == [] && SplitOf(buf).used == 0
    requires |buf| <= |start.input| && buf == start.input[|start.input| - |buf|..]
    ensures ServeAll(f, start.state, SplitOf(start.input).frames) == Served(state, batch)
    ensures buf == start.input[SplitOf(start.input).used..] && SplitOf(start.input).bad == SplitOf(buf).bad
  {
    hide SplitOf, ServeAll;
    NothingRead(f, state);
    assert batch + [] == batch;
  }
}
