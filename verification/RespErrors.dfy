/** Which bytes the decoder refuses: exactly those that no further bytes can turn into a frame, as soon
    as the line they are in is finished. */
module RespErrors {
  import opened ByteStrings
  import opened Resp

  /** More bytes can make a frame of it. */
  ghost predicate Extendable(d: Bytes) { exists e: Bytes :: Decode(d + e).Frame? }

  // ---- nothing is waited for in vain ---------------------------------------------------------------------------

  function Zeros(n: nat): Bytes { seq(n, _ => 0) }

  function Empties(n: nat): seq<Bytes> { seq(n, _ => []) }

  /** An unfinished length line: a finished one fails, or it can be finished into a length. */
  lemma LineHopes(d: Bytes, pos: nat)
    requires pos <= |d| && FindCrlf(d, pos).None?
    ensures FindCrlf(d + CRLF, pos).Some? && pos <= |d|
    ensures IntegerLine(d + CRLF, pos).Some? ==> IntegerLine(d + CRLF, pos).value.1 == |d| + 2
  {
    assert CrlfAt(d + CRLF, |d|);
    forall k: nat | pos <= k < |d| ensures !CrlfAt(d + CRLF, k) {
      assert k + 1 < |d| ==> CrlfAt(d, k) == CrlfAt(d + CRLF, k);
    }
  }

  /** Bytes a bulk string still needs, unless it can only fail. */
  lemma BulkHopes(d: Bytes, pos: nat) returns (e: Bytes)
    requires pos <= |d| && DecodeBulk(d, pos) == NeedMore
    ensures (DecodeBulk(d + e, pos).Frame? && DecodeBulk(d + e, pos).consumed == |d + e|)
            || DecodeBulk(d + CRLF, pos) == Malformed
  {
    if pos == |d| {
      e := Bulk([]);
      BulkRoundTrip(d, [], []);
      assert d + Bulk([]) + [] == d + e;
    } else if FindCrlf(d, pos + 1).None? {
      LineHopes(d, pos + 1);
      var line := IntegerLine(d + CRLF, pos + 1);
      if line.Some? && line.value.0 >= 0 {
        e := CRLF + Zeros(line.value.0) + CRLF;
        LineThen(d, pos, line.value.0);
      } else {
        e := [];
      }
    } else {
      var (len, body) := IntegerLine(d, pos + 1).value;
      e := PayloadHopes(d, pos, len, body);
    }
  }

  lemma LineThen(d: Bytes, pos: nat, len: nat)
    requires pos < |d| && d[pos] == DOLLAR && FindCrlf(d, pos + 1).None?
    requires IntegerLine(d + CRLF, pos + 1) == Some((len as int, |d| + 2))
    ensures var e := CRLF + Zeros(len) + CRLF;
            DecodeBulk(d + e, pos).Frame? && DecodeBulk(d + e, pos).consumed == |d + e|
  {
    hide IntegerLine, FindCrlf;
    var e := CRLF + Zeros(len) + CRLF;
    LineHopes(d, pos + 1);
    assert d + e == (d + CRLF) + (Zeros(len) + CRLF);
    IntegerLineStable(d + CRLF, Zeros(len) + CRLF, pos + 1);
  }

  /** The payload or its CRLF is cut. */
  lemma PayloadHopes(d: Bytes, pos: nat, len: nat, body: nat) returns (e: Bytes)
    requires pos < |d| && d[pos] == DOLLAR && IntegerLine(d, pos + 1) == Some((len as int, body)) && body + len + 2 > |d|
    ensures (DecodeBulk(d + e, pos).Frame? && DecodeBulk(d + e, pos).consumed == |d + e|)
            || DecodeBulk(d + CRLF, pos) == Malformed
  {
    hide IntegerLine, FindCrlf;
    assert FindCrlf(d, pos + 1).Some? by { LineFound(d, pos + 1); }
    if |d| <= body + len {
      e := Zeros(body + len - |d|) + CRLF;
      IntegerLineStable(d, e, pos + 1);
      assert (d + e)[body + len] == CR && (d + e)[body + len + 1] == LF;
    } else {
      e := [LF];
      IntegerLineStable(d, e, pos + 1);
      IntegerLineStable(d, CRLF, pos + 1);
      assert (d + CRLF)[body + len] == d[body + len] && (d + e)[body + len] == d[body + len];
    }
  }

  lemma LineFound(d: Bytes, pos: nat)
    requires IntegerLine(d, pos).Some?
    ensures FindCrlf(d, pos).Some?
  {}

  lemma {:induction false} BulksHope(d: Bytes, pos: nat, count: nat) returns (e: Bytes)
    requires pos <= |d| && DecodeBulks(d, pos, count) == NeedMore
    ensures DecodeBulks(d + e, pos, count).Frame? || DecodeBulks(d + CRLF, pos, count) == Malformed
    decreases count
  {
    hide DecodeBulk, Bulks;
    var b := DecodeBulk(d, pos);
    if b.Frame? {
      e := BulksHope(d, b.consumed, count - 1);
      DecodeBulkStable(d, e, pos);
      DecodeBulkStable(d, CRLF, pos);
    } else {
      var more := BulkHopes(d, pos);
      var rest := Bulks(Empties(count - 1));
      e := more + rest;
      if DecodeBulk(d + CRLF, pos) != Malformed {
        DecodeBulkStable(d + more, rest, pos);
        assert d + e == (d + more) + rest;
        assert (d + more) + rest + [] == d + e;
        BulksRoundTrip(d + more, Empties(count - 1), []);
      }
    }
  }

  /** No bytes are waited for in vain: what is incomplete can become a frame, or fails at the latest when
      its line ends. */
  lemma NoFalseHope(d: Bytes)
    requires Decode(d) == NeedMore
    ensures Extendable(d) || Decode(d + CRLF) == Malformed
  {
    hide IntegerLine, FindCrlf, DecodeBulks, Bulks;
    if d == [] {
      ArrayRoundTrip([], []);
      assert d + (Array([]) + []) == Array([]) + [];
    } else if FindCrlf(d, 1).None? {
      LineHopes(d, 1);
      var line := IntegerLine(d + CRLF, 1);
      if line.Some? && line.value.0 >= 0 {
        var rest := Bulks(Empties(line.value.0));
        IntegerLineStable(d + CRLF, rest, 1);
        assert (d + CRLF) + rest == d + (CRLF + rest);
        assert (d + CRLF) + rest + [] == d + (CRLF + rest);
        BulksRoundTrip(d + CRLF, Empties(line.value.0), []);
        assert Decode(d + (CRLF + rest)).Frame?;
      }
    } else {
      var (count, pos) := IntegerLine(d, 1).value;
      var e := BulksHope(d, pos, count);
      IntegerLineStable(d, e, 1);
      IntegerLineStable(d, CRLF, 1);
      if DecodeBulks(d + CRLF, pos, count) != Malformed {
        assert Decode(d + e).Frame?;
      }
    }
  }

  /** Exactly what is refused: what cannot become a frame, unless it ends within a line that is itself
      refused when it ends. */
  lemma RefusedExactly(d: Bytes)
    ensures Decode(d) == Malformed ==> !Extendable(d) && Decode(d + CRLF) == Malformed
    ensures Decode(d) == Malformed || Extendable(d) || (Decode(d) == NeedMore && Decode(d + CRLF) == Malformed)
  {
    if Decode(d) == Malformed {
      DecodeStable(d, CRLF);
      forall e: Bytes ensures !Decode(d + e).Frame? {
        DecodeStable(d, e);
      }
    } else if Decode(d) == NeedMore {
      NoFalseHope(d);
    } else {
      assert d + [] == d;
    }
  }

  // ---- the ways to be refused ------------------------------------------------------------------------------------

  /** A line that holds a length: digits, or a zero with a minus. */
  predicate IsLength(line: Bytes) {
    line != [] && (AllDigits(line) || (line[0] == MINUS && |line| > 1 && AllDigits(line[1..]) && Value(line[1..]) == 0))
  }

  ghost predicate NoCrlf(line: Bytes) { forall i: nat :: !CrlfAt(line, i) }

  lemma LineOf(d: Bytes, pre: Bytes, line: Bytes, rest: Bytes)
    requires NoCrlf(line) && d == pre + line + CRLF + rest
    ensures FindCrlf(d, |pre|) == Some(|pre| + |line|) && d[|pre|..|pre| + |line|] == line
    ensures IntegerLine(d, |pre|).Some? && IntegerLine(d, |pre|).value.0 >= 0 <==> IsLength(line)
  {
    var e := |pre| + |line|;
    assert CrlfAt(d, e);
    forall k: nat | |pre| <= k < e ensures !CrlfAt(d, k) {
      assert k + 1 < e ==> CrlfAt(line, k - |pre|) == CrlfAt(d, k);
    }
    assert d[|pre|..e] == line;
  }

  /** A bulk string that is wrong: no '$', a finished line without a length, or a payload not followed by CRLF. */
  ghost predicate BadBulk(x: Bytes) {
    || (x != [] && x[0] != DOLLAR)
    || (exists line, rest :: x == [DOLLAR] + line + CRLF + rest && NoCrlf(line) && !IsLength(line))
    || (exists s, a, b, rest :: x == [DOLLAR] + Decimal(|s|) + CRLF + s + [a, b] + rest && [a, b] != CRLF)
  }

  lemma BadBulkRefused(pre: Bytes, x: Bytes)
    requires BadBulk(x)
    ensures DecodeBulk(pre + x, |pre|) == Malformed
  {
    hide Decimal, FindCrlf;
    var d := pre + x;
    if x != [] && x[0] != DOLLAR {
      assert d[|pre|] == x[0];
    } else if exists line, rest :: x == [DOLLAR] + line + CRLF + rest && NoCrlf(line) && !IsLength(line) {
      var line, rest :| x == [DOLLAR] + line + CRLF + rest && NoCrlf(line) && !IsLength(line);
      assert d == (pre + [DOLLAR]) + line + CRLF + rest;
      LineOf(d, pre + [DOLLAR], line, rest);
    } else {
      var s, a, b, rest :| x == [DOLLAR] + Decimal(|s|) + CRLF + s + [a, b] + rest && [a, b] != CRLF;
      PayloadRefused(pre, s, a, b, rest);
    }
  }

  lemma PayloadRefused(pre: Bytes, s: Bytes, a: byte, b: byte, rest: Bytes)
    requires [a, b] != CRLF
    ensures DecodeBulk(pre + ([DOLLAR] + Decimal(|s|) + CRLF + s + [a, b] + rest), |pre|) == Malformed
  {
    hide Decimal, FindCrlf, IntegerLine, DecodeBulk;
    var d := pre + ([DOLLAR] + Decimal(|s|) + CRLF + s + [a, b] + rest);
    PayloadLine(d, pre, s, [a, b], rest);
    EndRefused(d, pre, Decimal(|s|), s, [a, b], rest);
  }

  lemma PayloadLine(d: Bytes, pre: Bytes, s: Bytes, end: Bytes, rest: Bytes)
    requires |end| == 2 && d == pre + ([DOLLAR] + Decimal(|s|) + CRLF + s + end + rest)
    ensures IntegerLine(d, |pre| + 1) == Some((|s| as int, |pre| + 1 + |Decimal(|s|)| + 2))
  {
    hide Decimal, FindCrlf, IntegerLine;
    PayloadParts(pre, Decimal(|s|), s, end, rest);
    IntegerLineOfDecimal(pre + [DOLLAR], |s|, s + end + rest);
  }

  lemma EndRefused(d: Bytes, pre: Bytes, line: Bytes, s: Bytes, end: Bytes, rest: Bytes)
    requires |end| == 2 && end != CRLF && d == pre + ([DOLLAR] + line + CRLF + s + end + rest)
    requires IntegerLine(d, |pre| + 1) == Some((|s| as int, |pre| + 1 + |line| + 2))
    ensures DecodeBulk(d, |pre|) == Malformed
  {
    hide FindCrlf, IntegerLine, DecodeBulk;
    PayloadParts(pre, line, s, end, rest);
    WrongEnd(d, |pre|, |s|, |pre| + 1 + |line| + 2);
  }

  lemma PayloadParts(pre: Bytes, line: Bytes, s: Bytes, end: Bytes, rest: Bytes)
    requires |end| == 2
    ensures var d := pre + ([DOLLAR] + line + CRLF + s + end + rest);
            var body := |pre| + 1 + |line| + 2;
            && d == (pre + [DOLLAR]) + line + CRLF + (s + end + rest)
            && |d| >= body + |s| + 2 && d[|pre|] == DOLLAR && d[body + |s|..body + |s| + 2] == end
  {
    var d := pre + ([DOLLAR] + line + CRLF + s + end + rest);
    assert d == (pre + [DOLLAR] + line + CRLF + s) + end + rest;
  }

  lemma WrongEnd(d: Bytes, pos: nat, len: nat, body: nat)
    requires pos < |d| && d[pos] == DOLLAR && IntegerLine(d, pos + 1) == Some((len as int, body))
    requires body + len + 2 <= |d| && d[body + len..body + len + 2] != CRLF
    ensures DecodeBulk(d, pos) == Malformed
  {
    hide IntegerLine, FindCrlf;
  }

  /** Behind any number of whole bulk strings of an array that announced more of them. */
  lemma {:induction false} BadBulksRefused(pre: Bytes, ts: seq<Bytes>, x: Bytes, n: nat)
    requires |ts| < n && BadBulk(x)
    ensures DecodeBulks(pre + Bulks(ts) + x, |pre|, n) == Malformed
    decreases |ts|
  {
    hide DecodeBulk, Bulk, Bulks, BadBulk;
    FirstBulk(ts);
    var d := pre + Bulks(ts) + x;
    if ts == [] {
      assert d == pre + x;
      BadBulkRefused(pre, x);
    } else {
      assert d == pre + Bulk(ts[0]) + (Bulks(ts[1..]) + x);
      BulkRoundTrip(pre, ts[0], Bulks(ts[1..]) + x);
      assert d == (pre + Bulk(ts[0])) + Bulks(ts[1..]) + x;
      BadBulksRefused(pre + Bulk(ts[0]), ts[1..], x, n - 1);
    }
  }

  /** Bytes that are no array, an array whose finished first line holds no length, and an array with a bad
      bulk string behind any number of good ones are all refused, whatever follows. */
  lemma Refused(d: Bytes)
    requires || (d != [] && d[0] != STAR)
             || (exists line, rest :: d == [STAR] + line + CRLF + rest && NoCrlf(line) && !IsLength(line))
             || (exists n: nat, ts, x :: d == ArrayHeader(n) + Bulks(ts) + x && |ts| < n && BadBulk(x))
    ensures Decode(d) == Malformed
  {
    hide Bulks, BadBulk, DecodeBulks, IntegerLine, ArrayHeader;
    if d != [] && d[0] != STAR {
    } else if exists line, rest :: d == [STAR] + line + CRLF + rest && NoCrlf(line) && !IsLength(line) {
      var line, rest :| d == [STAR] + line + CRLF + rest && NoCrlf(line) && !IsLength(line);
      LineOf(d, [STAR], line, rest);
    } else {
      var n: nat, ts, x :| d == ArrayHeader(n) + Bulks(ts) + x && |ts| < n && BadBulk(x);
      CountThen(n, Bulks(ts) + x);
      assert d == ArrayHeader(n) + (Bulks(ts) + x);
      BadBulksRefused(ArrayHeader(n), ts, x, n);
    }
  }

  /** A line that has not ended is never judged, whatever is in it. */
  lemma UnfinishedLineWaits(line: Bytes, n: nat, ts: seq<Bytes>)
    requires NoCrlf(line) && |ts| < n
    ensures Decode([STAR] + line) == NeedMore && Decode(ArrayHeader(n) + Bulks(ts) + ([DOLLAR] + line)) == NeedMore
  {
    hide Bulks, DecodeBulks, ArrayHeader, DecodeBulk, NoCrlf;
    NoLine([STAR], line);
    CountThen(n, Bulks(ts) + ([DOLLAR] + line));
    assert ArrayHeader(n) + Bulks(ts) + ([DOLLAR] + line) == ArrayHeader(n) + (Bulks(ts) + ([DOLLAR] + line));
    BulksWait(ArrayHeader(n), ts, line, n);
  }

  lemma CountThen(n: nat, x: Bytes)
    ensures Decode(ArrayHeader(n) + x) == DecodeBulks(ArrayHeader(n) + x, |ArrayHeader(n)|, n)
  {
    hide Decimal, DecodeBulks, FindCrlf, IntegerLine;
    assert ArrayHeader(n) + x == [STAR] + Decimal(n) + CRLF + x;
    IntegerLineOfDecimal([STAR], n, x);
  }

  lemma NoLine(pre: Bytes, line: Bytes)
    requires NoCrlf(line)
    ensures FindCrlf(pre + line, |pre|).None?
  {
    if FindCrlf(pre + line, |pre|).Some? {
      assert CrlfAt(line, FindCrlf(pre + line, |pre|).value - |pre|);
    }
  }

  lemma LineWaits(d: Bytes, pos: nat)
    requires pos < |d| && d[pos] == DOLLAR && FindCrlf(d, pos + 1).None?
    ensures DecodeBulk(d, pos) == NeedMore
  {}

  lemma {:induction false} BulksWait(pre: Bytes, ts: seq<Bytes>, line: Bytes, n: nat)
    requires |ts| < n && NoCrlf(line)
    ensures DecodeBulks(pre + Bulks(ts) + ([DOLLAR] + line), |pre|, n) == NeedMore
    decreases |ts|
  {
    hide Bulk, Bulks, DecodeBulk, NoCrlf;
    FirstBulk(ts);
    var d := pre + Bulks(ts) + ([DOLLAR] + line);
    if ts == [] {
      assert d == (pre + [DOLLAR]) + line;
      NoLine(pre + [DOLLAR], line);
      LineWaits(d, |pre|);
    } else {
      assert d == pre + Bulk(ts[0]) + (Bulks(ts[1..]) + ([DOLLAR] + line));
      BulkRoundTrip(pre, ts[0], Bulks(ts[1..]) + ([DOLLAR] + line));
      assert d == (pre + Bulk(ts[0])) + Bulks(ts[1..]) + ([DOLLAR] + line);
      BulksWait(pre + Bulk(ts[0]), ts[1..], line, n - 1);
    }
  }
}
