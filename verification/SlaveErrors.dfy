/** Which bytes a replica's parser refuses, in every state: its answer to any line, number, snapshot or stream. */
module SlaveErrors {
  import opened ByteStrings
  import opened Commands
  import opened VNodeIndexes
  import opened Databases
  import opened Frames
  import opened Snapshots
  import opened ReplicationSlaves
  import opened ReplicationParser
  import Resp

  // ---- numbers ---------------------------------------------------------------------------------------------------

  /** How C reads a number: behind blanks an optional sign, then digits as far as they go. */
  ghost predicate Reads(t: Bytes, sign: Bytes, digits: Bytes, rest: Bytes) {
    && sign in {[], [PLUS], [MINUS]} && AllDigits(digits) && digits != [] && (rest != [] ==> !IsDigit(rest[0]))
    && exists b: Bytes :: Blank(b) && t == b + sign + digits + rest
  }

  /** Spaces, and the five control characters from tab to carriage return. */
  predicate Blank(b: Bytes) { forall i | 0 <= i < |b| :: b[i] in {32, 9, 10, 11, 12, 13} }

  lemma {:induction false} SkipsBlanks(b: Bytes, u: Bytes)
    requires Blank(b) && (u != [] ==> !IsBlank(u[0]))
    ensures SkipBlanks(b + u) == u
    decreases |b|
  {
    if b == [] {
      assert b + u == u;
    } else {
      assert (b + u)[1..] == b[1..] + u;
      SkipsBlanks(b[1..], u);
    }
  }

  lemma {:induction false} BlanksSkipped(t: Bytes) returns (b: Bytes)
    ensures Blank(b) && t == b + SkipBlanks(t)
    ensures SkipBlanks(t) != [] ==> !IsBlank(SkipBlanks(t)[0])
    decreases |t|
  {
    if t != [] && IsBlank(t[0]) {
      var c := BlanksSkipped(t[1..]);
      b := [t[0]] + c;
      assert t == [t[0]] + t[1..];
      assert [t[0]] + (c + SkipBlanks(t)) == b + SkipBlanks(t);
    } else {
      b := [];
    }
  }

  lemma SignThenDigits(t: Bytes, b: Bytes, sign: Bytes, digits: Bytes, rest: Bytes)
    requires Blank(b) && t == b + sign + digits + rest
    requires sign in {[], [PLUS], [MINUS]} && AllDigits(digits) && digits != [] && (rest != [] ==> !IsDigit(rest[0]))
    ensures ReadNumeral(t) == Numeral(sign == [MINUS], digits, rest) && SignOf(t) == sign
  {
    hide SkipBlanks, LeadingDigits;
    var u := sign + digits + rest;
    assert t == b + u;
    assert u[0] == if sign == [] then digits[0] else sign[0];
    SkipsBlanks(b, u);
    assert sign == [] ==> u == digits + rest;
    assert sign != [] ==> u[1..] == digits + rest;
    DigitsThen(digits, rest);
    assert (digits + rest)[|digits|..] == rest;
  }

  lemma DigitsFirst(d: Bytes)
    ensures var g := LeadingDigits(d);
            d == g + d[|g|..] && (|g| < |d| ==> !IsDigit(d[|g|]))
  {
    hide LeadingDigits;
  }

  lemma PartsOf(t: Bytes)
    ensures var n := ReadNumeral(t);
            SkipBlanks(t) == SignOf(t) + (n.digits + n.rest) && (n.rest != [] ==> !IsDigit(n.rest[0]))
            && SignOf(t) in {[], [PLUS], [MINUS]} && (n.neg <==> SignOf(t) == [MINUS])
  {
    hide SkipBlanks, LeadingDigits, IsDigit;
    var u := SkipBlanks(t);
    var d := if SignOf(t) == [] then u else u[1..];
    DigitsFirst(d);
    assert u == SignOf(t) + d;
  }

  /** The reader finds a number exactly where the text has one, and that number. */
  lemma NumberRead(t: Bytes, sign: Bytes, digits: Bytes, rest: Bytes)
    ensures Reads(t, sign, digits, rest)
       <==> digits != [] && ReadNumeral(t) == Numeral(sign == [MINUS], digits, rest) && SignOf(t) == sign
  {
    hide SkipBlanks, ReadNumeral, SignOf;
    if Reads(t, sign, digits, rest) {
      var b: Bytes :| Blank(b) && t == b + sign + digits + rest;
      SignThenDigits(t, b, sign, digits, rest);
    } else if ReadNumeral(t).digits != [] {
      var b := BlanksSkipped(t);
      PartsOf(t);
      var n := ReadNumeral(t);
      assert b + (SignOf(t) + (n.digits + n.rest)) == b + SignOf(t) + n.digits + n.rest;
    }
  }

  function SignOf(t: Bytes): Bytes {
    var u := SkipBlanks(t);
    if u != [] && u[0] in {PLUS, MINUS} then [u[0]] else []
  }

  ghost predicate HasNumber(t: Bytes) { exists sign, digits, rest :: Reads(t, sign, digits, rest) }

  lemma HasNumberIs(t: Bytes)
    ensures HasNumber(t) <==> ReadNumeral(t).digits != []
  {
    hide Reads, ReadNumeral;
    if ReadNumeral(t).digits != [] {
      var n := ReadNumeral(t);
      PartsOf(t);
      NumberRead(t, SignOf(t), n.digits, n.rest);
    }
    if HasNumber(t) {
      var sign, digits, rest :| Reads(t, sign, digits, rest);
      NumberRead(t, sign, digits, rest);
    }
  }

  /** A length is the number the text begins with; there is none exactly if the text does not begin with one. */
  lemma LengthIs(t: Bytes, sign: Bytes, digits: Bytes, rest: Bytes)
    ensures LeadingInt(t).Some? <==> HasNumber(t)
    ensures Reads(t, sign, digits, rest) ==> LeadingInt(t) == Some(if sign == [MINUS] then -(Value(digits) as int) else Value(digits))
  {
    hide Reads, ReadNumeral;
    HasNumberIs(t);
    NumberRead(t, sign, digits, rest);
  }

  /** An offset is the text's only number, up to its end or a zero byte; a negative one wraps around. */
  lemma OffsetIs(t: Bytes, sign: Bytes, digits: Bytes, rest: Bytes)
    requires Reads(t, sign, digits, rest)
    ensures WholeUnsigned(t).Some? <==> rest == [] || rest[0] == 0
    ensures WholeUnsigned(t).Some? && sign != [MINUS] ==> WholeUnsigned(t).value == Value(digits)
    ensures WholeUnsigned(t).Some? && sign == [MINUS] ==> (WholeUnsigned(t).value + Value(digits)) % WORD == 0 && WholeUnsigned(t).value < WORD
  {
    hide Reads, ReadNumeral;
    NumberRead(t, sign, digits, rest);
    Wraps(Value(digits));
  }

  lemma Wraps(v: nat)
    ensures ((WORD - v % WORD) % WORD + v) % WORD == 0
  {
    var q := v / WORD;
    assert v == q * WORD + v % WORD;
    if v % WORD == 0 {
      assert (WORD - v % WORD) % WORD == 0;
    } else {
      assert (WORD - v % WORD) % WORD == WORD - v % WORD;
      assert (WORD - v % WORD) + v == (q + 1) * WORD;
    }
  }

  // ---- the first reply ------------------------------------------------------------------------------------------

  /** A refusal: the line is used up, nothing else of the replica changes, and the link has failed. */
  lemma RefusalFails(s: Slave, text: Bytes, rest: Bytes, hint: Walk)
    requires s.state == WaitFullresync && s.input == [MINUS] + text + [LF] + rest && NoLf(text) && |s.input| >= 3
    ensures Iterate(s, hint) == Round(s.(state := Error, rdbOpen := false, input := rest), false)
  {
    var end := |text| + 1;
    assert s.input[end] == LF;
    assert forall i | 0 <= i < end :: s.input[i] != LF;
    assert Find(s.input, LF, 0) == Some(end);
    assert s.input[end + 1..] == rest;
  }

  /** Bytes that begin neither a reply nor a refusal. */
  lemma JunkFails(s: Slave, hint: Walk)
    requires s.state == WaitFullresync && |s.input| >= 3 && s.input[0] !in {PLUS, MINUS}
    ensures Iterate(s, hint) == Round(s.(state := Error, rdbOpen := false), false)
  {}

  /** Its first line ends in a line feed without a return. */
  ghost predicate BareLine(d: Bytes) {
    exists n: nat | 0 < n < |d| :: d[n] == LF && d[n - 1] != CR && NoLf(d[..n])
  }

  lemma LinePends(d: Bytes)
    ensures SimpleString(d) == Pending <==> |d| < 3 || (d[0] in {PLUS, MINUS} && NoLf(d)) || (d[0] == PLUS && BareLine(d))
  {
    if |d| >= 3 && Find(d, LF, 0).Some? {
      var n := Find(d, LF, 0).value;
      assert forall i | 0 <= i < n :: d[i] != LF;
      assert NoLf(d[..n]) && !NoLf(d);
      if BareLine(d) {
        var m: nat :| 0 < m < |d| && d[m] == LF && d[m - 1] != CR && NoLf(d[..m]);
        assert m == n;
      }
    } else if |d| >= 3 {
      assert NoLf(d);
    }
  }

  /** Nothing is decided before the line is there; one whose line feed lacks its return is waited on for ever. */
  lemma LineAwaited(s: Slave, hint: Walk)
    requires s.state == WaitFullresync
    ensures Iterate(s, hint) == Round(s, false)
       <==> |s.input| < 3 || (s.input[0] in {PLUS, MINUS} && NoLf(s.input)) || (s.input[0] == PLUS && BareLine(s.input))
  {
    hide WholeUnsigned, SimpleString, Find, NoLf, BareLine;
    LinePends(s.input);
  }

  /** An announcement names an id and an offset, in this form and no other. */
  ghost predicate Announcement(text: Bytes, id: Bytes, t: Bytes) {
    text == FULLRESYNC + id + [SPACE] + t && id != [] && t != [] && forall i | 0 <= i < |id| :: id[i] != SPACE
  }

  ghost predicate Announcing(text: Bytes) { exists id, t :: Announcement(text, id, t) }

  /** What a reply line does. "CONTINUE" goes on from what the replica has. An announcement's id is recorded, with
      its offset if that is a number and the link fails if not. Any other reply fails and changes nothing else. */
  lemma ReplyRead(s: Slave, text: Bytes, rest: Bytes, hint: Walk)
    requires s.state == WaitFullresync && s.input == [PLUS] + text + CRLF + rest && NoLf(text)
    ensures var r, t := Iterate(s, hint), s.(input := rest);
            && (text == CONTINUE ==> r == Round(t.(state := Streaming), true))
            && (text != CONTINUE && !Announcing(text) ==> r == Round(t.(state := Error, rdbOpen := false), false))
            && (forall id, o | Announcement(text, id, o) ::
                  && (WholeUnsigned(o).Some? ==>
                        r == Round(t.(replid := id, offset := WholeUnsigned(o).value, haveOffset := true, state := RecvRdbHeader), true))
                  && (WholeUnsigned(o).None? ==> r == Round(t.(replid := id, state := Error, rdbOpen := false), false)))
  {
    hide SimpleString, WholeUnsigned, Announcement;
    SimpleStringOf(text, rest);
    forall id, o | Announcement(text, id, o)
      ensures text != CONTINUE && HandleSyncReply(s.(input := rest), text) ==
              if WholeUnsigned(o).Some? then
                Round(s.(input := rest, replid := id, offset := WholeUnsigned(o).value, haveOffset := true, state := RecvRdbHeader), true)
              else Round(s.(input := rest, replid := id, state := Error, rdbOpen := false), false)
    {
      AnnouncementRead(s.(input := rest), text, id, o);
    }
    if text != CONTINUE && !Announcing(text) {
      OtherReply(s.(input := rest), text);
    }
  }

  lemma AnnouncementRead(s: Slave, text: Bytes, id: Bytes, o: Bytes)
    requires Announcement(text, id, o)
    ensures text != CONTINUE
    ensures HandleSyncReply(s, text) ==
            if WholeUnsigned(o).Some? then
              Round(s.(replid := id, offset := WholeUnsigned(o).value, haveOffset := true, state := RecvRdbHeader), true)
            else Round(s.(replid := id, state := Error, rdbOpen := false), false)
  {
    hide WholeUnsigned;
    assert text[0] == FULLRESYNC[0] != CONTINUE[0];
    var tail := text[|FULLRESYNC|..];
    assert tail == id + [SPACE] + o;
    assert forall i | 0 <= i < |id| :: tail[i] == id[i];
    assert tail[|id|] == SPACE;
    assert Find(tail, SPACE, 0) == Some(|id|);
    assert tail[..|id|] == id && tail[|id| + 1..] == o;
  }

  lemma AnnouncedBy(text: Bytes, sp: nat)
    requires FULLRESYNC <= text && 0 < sp < |text| - |FULLRESYNC| - 1
    requires var tail := text[|FULLRESYNC|..]; tail[sp] == SPACE && forall i | 0 <= i < sp :: tail[i] != SPACE
    ensures Announcing(text)
  {
    var tail := text[|FULLRESYNC|..];
    assert text == FULLRESYNC + tail[..sp] + [SPACE] + tail[sp + 1..];
    assert Announcement(text, tail[..sp], tail[sp + 1..]);
  }

  lemma OtherReply(s: Slave, text: Bytes)
    requires text != CONTINUE && !Announcing(text)
    ensures HandleSyncReply(s, text) == Round(s.(state := Error, rdbOpen := false), false)
  {
    hide WholeUnsigned, Announcing;
    if FULLRESYNC <= text {
      var tail := text[|FULLRESYNC|..];
      var sp := Find(tail, SPACE, 0);
      if sp.Some? && sp.value != 0 && sp.value + 1 < |tail| {
        AnnouncedBy(text, sp.value);
      }
    }
  }

  // ---- lengths ----------------------------------------------------------------------------------------------------

  /** A length line in front of a snapshot or a backlog: no number or a negative one fails the link, and only that. */
  lemma LengthRead(s: Slave, text: Bytes, rest: Bytes, hint: Walk)
    requires s.state == RecvRdbHeader || s.state == RecvBacklogHeader
    requires s.input == [DOLLAR] + text + CRLF + rest && NoLf(text) && |s.input| >= 4
    ensures var r, n := Iterate(s, hint), LeadingInt(text + [CR]);
            && (n.None? ==> r == Round(s.(state := Error, rdbOpen := false), false))
            && (n.Some? && n.value < 0 ==> r == Round(s.(input := rest, state := Error, rdbOpen := false), false))
            && (n.Some? && n.value > 0 && s.state == RecvRdbHeader ==>
                  r == Round(s.(input := rest, rdbLeft := n.value, state := RecvRdbBody), true))
            && (n.Some? && n.value > 0 && s.state == RecvBacklogHeader ==>
                  r == Round(s.(input := rest, backlog := [], backlogLeft := n.value, state := RecvBacklogBody), true))
            && (n == Some(0) && s.state == RecvBacklogHeader ==>
                  r == Round(s.(input := rest, backlog := [], backlogLeft := 0, state := Streaming), true))
            && (n == Some(0) && s.state == RecvRdbHeader ==> Loads(r, s.(input := rest, rdbLeft := 0), hint))
  {
    hide LeadingInt, LoadPath;
    var end := |text| + 2;
    assert s.input[end] == LF && s.input[end - 1] == CR;
    assert forall i | 0 <= i < end :: s.input[i] != LF;
    assert Find(s.input, LF, 0) == Some(end);
    assert s.input[1..end] == text + [CR] && s.input[end + 1..] == rest;
  }

  /** The file received becomes the data and is moved away; without one, or with one that does not load, the link fails,
      and data and file are what the attempt has left. */
  ghost predicate Loads(r: Round, s: Slave, hint: Walk) {
    if s.tmp.None? then r == Round(s.(state := Error, rdbOpen := false), false)
    else
      var l := LoadPath(s.tmp.value, s.db, hint);
      var t := s.(rdbOpen := false, tmp := None, db := l.db);
      r == if l.ok then Round(t.(state := RecvBacklogHeader), true) else Round(t.(state := Error), false)
  }

  /** The last bytes of a snapshot: what has been received for it is loaded, and what follows is left alone. */
  lemma SnapshotRead(s: Slave, file: Bytes, rest: Bytes, hint: Walk)
    requires s.state == RecvRdbBody && s.rdbLeft > 0 && s.input == file + rest && |file| == s.rdbLeft
    ensures Loads(Iterate(s, hint), s.(input := rest, tmp := Some(FileOf(s) + file), rdbLeft := 0), hint)
  {
    hide LoadPath, FileOf;
    assert s.input[..s.rdbLeft] == file && s.input[s.rdbLeft..] == rest;
  }

  // ---- commands -----------------------------------------------------------------------------------------------------

  /** A backlog that is not whole commands, each of which can be applied, fails the link; so does every byte behind
      the last whole command. */
  lemma BacklogRead(s: Slave, cs: seq<Cmd>, d: Bytes)
    requires s.backlog == EncodeAll(cs) + d && AllKeyed(cs) && Run(s.db, cs).ok && !Resp.Decode(d).Frame?
    ensures var r := ApplyBacklog(s);
            if d == [] then
              r == Round(s.(db := Run(s.db, cs).db, backlog := [], offset := s.offset + |EncodeAll(cs)|,
                            haveOffset := s.haveOffset || cs != [], state := Streaming), true)
            else r == Round(s.(db := Run(s.db, cs).db, state := Error, rdbOpen := false), false)
  {
    hide EncodeAll, Run, ConsumeStream, Resp.Decode;
    EndsBehind(s.db, cs, d);
    assert |s.backlog| == |EncodeAll(cs)| + |d|;
    LogBytes(cs);
    assert Resp.Decode([]) == Resp.NeedMore by { EmptyWaits(); }
  }

  lemma EmptyWaits()
    ensures Resp.Decode([]) == Resp.NeedMore
  {}

  lemma LogBytes(cs: seq<Cmd>)
    ensures EncodeAll(cs) == [] <==> cs == []
  {
    hide Encode;
    if cs != [] {
      EncodedSome(cs[|cs| - 1]);
    }
  }

  lemma EncodedSome(c: Cmd)
    ensures Encode(c) != []
  {
    hide Tokens;
  }

  /** Streaming, whole commands are applied and counted; an unfinished one is kept, malformed bytes fail the link. */
  lemma StreamRead(s: Slave, cs: seq<Cmd>, d: Bytes)
    requires s.stream + s.input == EncodeAll(cs) + d && AllKeyed(cs) && Run(s.db, cs).ok && !Resp.Decode(d).Frame?
    ensures var r := Drain(s);
            if Resp.Decode(d) == Resp.NeedMore then
              r == Round(s.(input := [], db := Run(s.db, cs).db, stream := d, offset := s.offset + |EncodeAll(cs)|,
                            haveOffset := s.haveOffset || cs != []), false)
            else r == Round(s.(input := [], db := Run(s.db, cs).db, stream := EncodeAll(cs) + d, state := Error, rdbOpen := false), false)
  {
    hide EncodeAll, Run, ConsumeStream, Resp.Decode;
    EndsBehind(s.db, cs, d);
    LogBytes(cs);
    assert (EncodeAll(cs) + d)[|EncodeAll(cs)|..] == d;
  }

  /** A frame that is no write, or a write that cannot be applied, fails the link in both states: what came before it
      has been applied and does not count. */
  lemma CommandFails(s: Slave, cs: seq<Cmd>, t: seq<Bytes>, rest: Bytes)
    requires AllKeyed(cs) && Run(s.db, cs).ok
    requires FromTokens(t).Write? ==> !Apply(Run(s.db, cs).db, FromTokens(t).cmd).ok
    ensures var d := EncodeAll(cs) + (Resp.Array(t) + rest);
            var left := if FromTokens(t).Write? then Apply(Run(s.db, cs).db, FromTokens(t).cmd).db else Run(s.db, cs).db;
            && (s.backlog == d ==> ApplyBacklog(s) == Round(s.(db := left, state := Error, rdbOpen := false), false))
            && (s.stream + s.input == d ==> Drain(s) == Round(s.(input := [], db := left, stream := d, state := Error, rdbOpen := false), false))
  {
    hide EncodeAll, Run, ConsumeStream, Resp.Array, FromTokens, Apply;
    StopsAt(s.db, cs, t, rest);
  }
}
