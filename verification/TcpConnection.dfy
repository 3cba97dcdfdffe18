/** TcpConn's output side: bytes leave in the order of the calls, around a file in the middle. */
module TcpConnections {
  import opened ByteStrings

  const CHUNK: nat := 0x100000

  /** What is to be sent, in order. */
  function Line(output: Bytes, file: Bytes, post: Bytes): Bytes { output + file + post }

  lemma PostGrows(wire: Bytes, output: Bytes, file: Bytes, post: Bytes, data: Bytes)
    ensures wire + Line(output, file, post + data) == wire + Line(output, file, post) + data
  {}

  lemma OutputGrows(wire: Bytes, output: Bytes, data: Bytes)
    ensures wire + Line(output + data, [], []) == wire + Line(output, [], []) + data
  {}

  lemma PartSent(wire: Bytes, data: Bytes, n: nat)
    requires n <= |data|
    ensures wire + data[..n] + Line(data[n..], [], []) == wire + Line([], [], []) + data
  {
    assert data[..n] + data[n..] == data;
  }

  lemma HeadSent(wire: Bytes, output: Bytes, n: nat, file: Bytes, post: Bytes)
    requires n <= |output|
    ensures wire + output[..n] + Line(output[n..], file, post) == wire + Line(output, file, post)
  {
    assert output[..n] + output[n..] == output;
  }

  lemma FileSent(wire: Bytes, file: Bytes, offset: nat, n: nat, post: Bytes)
    requires offset + n <= |file|
    ensures wire + file[offset..offset + n] + Line([], file[offset + n..], post) == wire + Line([], file[offset..], post)
  {
    assert file[offset..] == file[offset..offset + n] + file[offset + n..];
  }

  lemma FileStarts(wire: Bytes, output: Bytes, file: Bytes)
    ensures wire + Line(output, file, []) == wire + Line(output, [], []) + file
  {}

  lemma PostMoves(wire: Bytes, post: Bytes)
    ensures wire + Line(post, [], []) == wire + Line([], [], post)
  {}

  class TcpConn {
    var closed: bool
    var output: Bytes          // to be sent first
    var file: Option<Bytes>    // then the rest of the file being sent, if any
    var offset: nat
    var remaining: nat
    var post: Bytes            // then what was queued behind it
    var wantWrite: bool        // the event loop is asked to say when the socket can take more
    ghost var wire: Bytes      // what the socket has taken
    ghost var calls: Bytes     // what Send and SendFile have accepted, in order
    ghost var answers: seq<int>   // what the socket said to each attempt

    ghost function FileRest(): Bytes
      reads this
    {
      if file.Some? && offset <= |file.value| then file.value[offset..] else []
    }

    ghost function Pending(): Bytes
      reads this
    {
      Line(output, FileRest(), post)
    }

    /** The last thing the socket said was that it takes nothing for now, and it has been asked since. */
    twostate predicate Full()
      reads this
    {
      |old(answers)| < |answers| && answers[|answers| - 1] == -1
    }

    /** ... that it failed. */
    twostate predicate Broke()
      reads this
    {
      |old(answers)| < |answers| && answers[|answers| - 1] <= 0 && answers[|answers| - 1] != -1
    }

    /** On an open connection what is on the socket and what is pending are the calls in order; after
        it closed, what got onto the socket is a prefix of them. */
    ghost predicate Valid()
      reads this
    {
      && (file.Some? ==> offset + remaining == |file.value|)
      && (file.None? ==> post == [] && remaining == 0)
      && (closed ==> file.None?)
      && (!closed && (output != [] || file.Some?) ==> wantWrite)
      && (if closed then wire <= calls else wire + Pending() == calls)
    }

    constructor ()
      ensures Valid() && !closed && wire == [] && calls == []
    {
      closed, output, file, offset, remaining, post, wantWrite := false, [], None, 0, 0, [], false;
      wire, calls, answers := [], [], [];
    }

    /** Conservation: what was accepted is what was sent and this many bytes. */
    method OutputBufferedBytes() returns (n: nat)
      requires Valid()
      ensures n == |Pending()| && (!closed ==> |calls| == |wire| + n)
    {
      n := |output| + |post| + remaining;
    }

    /** The socket takes some bytes, or none for now (-1), or fails (-2); a closed one always fails. */
    method SocketSend(data: Bytes) returns (n: int)
      modifies this`wire, this`answers
      ensures answers == old(answers) + [n]
      ensures -2 <= n <= |data| && (closed ==> n == -2)
      ensures wire == old(wire) + (if n > 0 then data[..n] else [])
    {
      n := *;
      if closed || n < -2 || n > |data| {
        n := -2;
      }
      if n > 0 {
        wire := wire + data[..n];
      }
      answers := answers + [n];
    }

    method Send(data: Bytes) returns (n: int)
      requires Valid()
      modifies this
      ensures Valid() && (old(closed) ==> closed) && old(wire) <= wire && old(answers) <= answers
      ensures if old(closed) then answers == old(answers) else closed ==> Broke()
      ensures !closed && data != [] && old(output) == [] && old(file).None? ==> |answers| == |old(answers)| + 1
      ensures !closed && data != [] && old(output) == [] && old(file).None? && output == data ==> answers[|answers| - 1] in {-1, 0}
      ensures old(file).None? ==> file.None?
      ensures old(closed) || data == [] ==> n == -1 && wire == old(wire) && calls == old(calls)
      ensures calls == old(calls) + (if n == -1 then [] else data)
      ensures !closed ==> file == old(file) && offset == old(offset) && remaining == old(remaining)
      ensures !closed && data != [] ==> n != -1
    {
      hide Line;
      if closed || data == [] {
        return -1;
      }
      if file.Some? {
        PostGrows(wire, output, FileRest(), post, data);
        post := post + data;
        calls := calls + data;
        return |data|;
      }
      if output != [] {
        OutputGrows(wire, output, data);
        output := output + data;
        wantWrite := true;
        calls := calls + data;
        return |data|;
      }
      PartSent(wire, data, 0);
      assert wire + data[..0] == wire && data[0..] == data;
      n := SocketSend(data);
      if n == -1 {
        output := data;
        wantWrite := true;
        calls := calls + data;
        return |data|;
      }
      if n < 0 {
        assert wire <= calls;
        Close();
        return -1;
      }
      PartSent(old(wire), data, n);
      assert n == 0 ==> old(wire) + data[..n] == old(wire);
      output := data[n..];
      if output != [] {
        wantWrite := true;
      }
      calls := calls + data;
    }

    method Close()
      requires Valid() || (wire <= calls && (file.Some? ==> offset + remaining == |file.value|))
      modifies this
      ensures closed && wire == old(wire) && calls == old(calls) && answers == old(answers)
      ensures wire <= calls ==> Valid()
    {
      if !closed {
        closed := true;
        DropFile();
      } else {
        file, offset, remaining, post := None, 0, 0, [];
      }
    }

    /** ClearSendFile without success: the rest of the file and what was queued behind it are dropped. */
    method DropFile()
      modifies this`file, this`offset, this`remaining, this`post
      ensures file == None && post == [] && remaining == 0
    {
      file, offset, remaining, post := None, 0, 0, [];
    }

    /** The file follows everything accepted before it; what is sent meanwhile follows the file.
        `after` is what the completion callback will send. */
    method SendFile(path: Option<Bytes>, after: seq<Bytes>) returns (ok: bool)
      requires Valid()
      modifies this
      ensures Valid() && (old(closed) ==> closed) && old(answers) <= answers
      ensures ok ==> closed || (output == [] && file.None?) || Full()
      ensures ok == (!old(closed) && path.Some? && old(file).None?)
      ensures !ok ==> wire == old(wire) && calls == old(calls)
      ensures ok ==> old(calls) + path.value <= calls
      ensures ok && !closed && file.Some? ==> calls == old(calls) + path.value
    {
      if closed || file.Some? || path.None? {
        return false;
      }
      hide Line;
      FileStarts(wire, output, path.value);
      file, offset, remaining := path, 0, |path.value|;
      wantWrite := true;
      calls := calls + path.value;
      assert FileRest() == path.value;
      HandleWrite(after);
      return true;
    }

    /** ClearSendFile after the last byte of the file: what was queued behind it moves up, and then the
        callback sends. */
    method CompleteFile(after: seq<Bytes>)
      requires Valid() && file.Some? && remaining == 0 && output == [] && !closed
      modifies this
      ensures Valid() && file == None && remaining == 0 && wire <= calls && old(wire) <= wire && old(answers) <= answers
      ensures closed ==> Broke()
      ensures old(calls) <= calls && (!closed ==> calls == old(calls) + Flat(after))
    {
      hide Line;
      assert FileRest() == [];
      PostMoves(wire, post);
      assert output + post == post;
      file, offset := None, 0;
      if post != [] {
        output := output + post;
        post := [];
        wantWrite := true;
      }
      RunCallback(after);
    }

    /** The callback's sends. */
    method RunCallback(after: seq<Bytes>)
      requires Valid() && file == None
      modifies this
      ensures Valid() && file == None && old(wire) <= wire && (old(closed) ==> closed) && old(answers) <= answers
      ensures if old(closed) then answers == old(answers) else closed ==> Broke()
      ensures old(calls) <= calls && (!closed ==> calls == old(calls) + Flat(after))
    {
      hide Line;
      var i := 0;
      assert after[..0] == [];
      while i < |after|
        invariant 0 <= i <= |after| && Valid() && file == None && old(wire) <= wire && (old(closed) ==> closed)
        invariant old(answers) <= answers && (if old(closed) then answers == old(answers) else closed ==> Broke())
        invariant old(calls) <= calls && (!closed ==> calls == old(calls) + Flat(after[..i]))
      {
        var n := Send(after[i]);
        assert after[..i + 1][..i] == after[..i];
        i := i + 1;
      }
      assert after[..i] == after;
    }

    /** As much as the socket takes: the buffer, then the file, then whatever came after it. It stops early only
        when the socket takes nothing for now, and gives up only when the socket has failed. */
    method HandleWrite(after: seq<Bytes>)
      requires Valid()
      modifies this
      ensures Valid() && (old(closed) ==> closed) && old(wire) <= wire && old(answers) <= answers
      ensures !closed ==> (output == [] && file.None? && !wantWrite) || Full()
      ensures closed ==> old(closed) || Broke()
      ensures old(calls) <= calls && (old(file).None? || file.Some? ==> calls == old(calls))
      ensures !closed ==> calls == old(calls) + (if old(file).Some? && file.None? then Flat(after) else [])
    {
      hide Line;
      while true
        invariant Valid() && (old(closed) ==> closed) && old(wire) <= wire && old(calls) <= calls && old(answers) <= answers
        invariant closed ==> old(closed) || Broke()
        invariant old(file).None? ==> file.None?
        invariant old(file).None? || file.Some? ==> calls == old(calls)
        invariant !closed ==> calls == old(calls) + (if old(file).Some? && file.None? then Flat(after) else [])
        decreases if file.Some? then 1 else 0, |output| + remaining
      {
        if output != [] {
          var more := DrainOutput();
          if !more {
            return;
          }
        } else if file.Some? && remaining > 0 {
          var more := DrainFile();
          if !more {
            return;
          }
        } else if file.Some? {
          CompleteFile(after);
        } else {
          wantWrite := false;
          return;
        }
      }
    }

    /** One send of the buffer; false if the socket is full or has failed. */
    method DrainOutput() returns (more: bool)
      requires Valid() && output != []
      modifies this
      ensures Valid() && (old(closed) ==> closed) && old(wire) <= wire && calls == old(calls) && old(answers) <= answers
      ensures !more ==> closed || Full()
      ensures closed ==> Broke()
      ensures more ==> closed == old(closed) && file == old(file) && remaining == old(remaining) && |output| < |old(output)|
      ensures !closed ==> file == old(file)
      ensures old(file).None? ==> file.None?
    {
      hide Line;
      var n := SocketSend(output);
      if n > 0 {
        HeadSent(old(wire), output, n, FileRest(), post);
        output := output[n..];
        return true;
      }
      if n == -1 {
        return false;
      }
      assert wire <= calls;
      Close();
      return false;
    }

    method DrainFile() returns (more: bool)
      requires Valid() && output == [] && file.Some? && remaining > 0
      modifies this
      ensures Valid() && (old(closed) ==> closed) && old(wire) <= wire && calls == old(calls) && old(answers) <= answers
      ensures !more ==> closed || Full()
      ensures closed ==> Broke()
      ensures more ==> file == old(file) && output == [] && remaining < old(remaining)
      ensures !closed ==> file == old(file)
    {
      hide Line;
      var chunk := if remaining > CHUNK then CHUNK else remaining;
      var bytes := file.value[offset..offset + chunk];
      var n := SocketSend(bytes);
      if n > 0 {
        TakenPrefix(file.value, offset, chunk, n);
        FileTaken(n, old(wire));
        return true;
      }
      if n == -1 {
        return false;
      }
      SentSoFar(wire, Pending(), calls);
      Close();
      return false;
    }

    /** The socket has taken n more bytes of the file. */
    method FileTaken(n: nat, ghost was: Bytes)
      requires !closed && output == [] && file.Some? && 0 < n <= remaining && offset + remaining == |file.value| && wantWrite
      requires wire == was + file.value[offset..offset + n] && was + Line([], file.value[offset..], post) == calls
      modifies this`offset, this`remaining
      ensures Valid() && remaining == old(remaining) - n
    {
      hide Line;
      FileSent(was, file.value, offset, n, post);
      offset := offset + n;
      remaining := remaining - n;
    }
  }

  lemma SentSoFar(wire: Bytes, rest: Bytes, calls: Bytes)
    requires wire + rest == calls
    ensures wire <= calls
  {}

  lemma TakenPrefix(file: Bytes, offset: nat, chunk: nat, n: nat)
    requires n <= chunk && offset + chunk <= |file|
    ensures file[offset..offset + chunk][..n] == file[offset..offset + n]
  {}

  function Flat(ss: seq<Bytes>): Bytes {
    if ss == [] then [] else Flat(ss[..|ss| - 1]) + ss[|ss| - 1]
  }
}
