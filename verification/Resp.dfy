/** The command-array subset of RESP: arrays of bulk strings ("Arrays" and "Bulk strings"
    of the Redis serialization protocol specification). */
module Resp {
  import opened ByteStrings

  datatype Decoded = NeedMore | Malformed | Frame(tokens: seq<Bytes>, consumed: nat)

  // ---- decoding -------------------------------------------------------------------------

  predicate CrlfAt(d: Bytes, i: nat) { i + 1 < |d| && d[i] == CR && d[i + 1] == LF }

  /** Position of the first CRLF at or after pos. */
  function FindCrlf(d: Bytes, pos: nat): (r: Option<nat>)
    ensures r.Some? ==> pos <= r.value && CrlfAt(d, r.value)
    ensures forall i: nat | pos <= i && CrlfAt(d, i) :: r.Some? && r.value <= i
    decreases |d| - pos
  {
    if pos + 1 >= |d| then None
    else if CrlfAt(d, pos) then Some(pos)
    else FindCrlf(d, pos + 1)
  }

  method FindCRLF(d: Bytes, pos: nat) returns (r: Option<nat>)
    ensures r == FindCrlf(d, pos)
  {
    var i := pos;
    while i + 1 < |d|
      invariant pos <= i
      invariant FindCrlf(d, pos) == FindCrlf(d, i)
    {
      if d[i] == CR && d[i + 1] == LF {
        return Some(i);
      }
      i := i + 1;
    }
    r := None;
  }

  /** An integer line: optional '-', digits only, CRLF. The result is the value and the position
      just after the CRLF; None covers both an unfinished line and a malformed one. */
  function IntegerLine(d: Bytes, pos: nat): (r: Option<(int, nat)>)
    ensures r.Some? ==> pos + 2 < r.value.1 <= |d|
  {
    match FindCrlf(d, pos)
    case None => None
    case Some(e) =>
      var line := d[pos..e];
      if line == [] then None
      else
        var neg := line[0] == MINUS;
        var digits := if neg then line[1..] else line;
        if digits == [] || !AllDigits(digits) then None
        else
          var v: int := Value(digits);
          Some((if neg then -v else v, e + 2))
  }

  method ParseIntegerLine(d: Bytes, pos: nat) returns (r: Option<(int, nat)>)
    ensures r == IntegerLine(d, pos)
  {
    var crlf := FindCRLF(d, pos);
    if crlf.None? || crlf.value == pos {
      return None;
    }
    var i := pos;
    var neg := false;
    if d[i] == MINUS {
      neg := true;
      i := i + 1;
      if i == crlf.value {
        return None;
      }
    }
    var value := ParseDigits(d, i, crlf.value);
    if value.None? {
      return None;
    }
    var v: int := value.value;
    r := Some((if neg then -v else v, crlf.value + 2));
  }

  /** The digit loop of ParseIntegerLine. */
  method ParseDigits(d: Bytes, start: nat, end: nat) returns (r: Option<nat>)
    requires start <= end <= |d|
    ensures r == if AllDigits(d[start..end]) then Some(Value(d[start..end])) else None
  {
    var i := start;
    var value: nat := 0;
    while i < end
      invariant start <= i <= end
      invariant AllDigits(d[start..i]) && value == Value(d[start..i])
    {
      if !IsDigit(d[i]) {
        assert d[start..end][i - start] == d[i];
        return None;
      }
      ValueOfSnoc(d[start..i], d[i]);
      assert d[start..i + 1] == d[start..i] + [d[i]];
      value := value * 10 + (d[i] as int - 48);
      i := i + 1;
    }
    r := Some(value);
  }

  /** One bulk string at position pos: a one-token frame ending at `consumed`. */
  function DecodeBulk(d: Bytes, pos: nat): (r: Decoded)
    ensures r.Frame? ==> pos < r.consumed <= |d| && |r.tokens| == 1
  {
    if pos >= |d| then NeedMore
    else if d[pos] != DOLLAR then Malformed
    else
      match IntegerLine(d, pos + 1)
      case None => if FindCrlf(d, pos + 1).None? then NeedMore else Malformed
      case Some((len, body)) =>
        if len < 0 then Malformed
        else if body + len + 2 > |d| then NeedMore
        else if d[body + len] != CR || d[body + len + 1] != LF then Malformed
        else Frame([d[body..body + len]], body + len + 2)
  }

  /** `count` bulk strings from position pos on; `consumed` is the absolute end position. */
  function DecodeBulks(d: Bytes, pos: nat, count: nat): (r: Decoded)
    requires pos <= |d|
    ensures r.Frame? ==> pos <= r.consumed <= |d| && |r.tokens| == count
    decreases count
  {
    if count == 0 then Frame([], pos)
    else
      var b := DecodeBulk(d, pos);
      if b.Frame? then Prepend(b.tokens, DecodeBulks(d, b.consumed, count - 1)) else b
  }

  function Prepend(ts: seq<Bytes>, r: Decoded): Decoded {
    if r.Frame? then Frame(ts + r.tokens, r.consumed) else r
  }

  /** One command array at the front of d. */
  function Decode(d: Bytes): (r: Decoded)
    ensures r.Frame? ==> 0 < r.consumed <= |d|
  {
    if |d| == 0 then NeedMore
    else if d[0] != STAR then Malformed
    else
      match IntegerLine(d, 1)
      case None => if FindCrlf(d, 1).None? then NeedMore else Malformed
      case Some((count, pos)) =>
        if count < 0 then Malformed else DecodeBulks(d, pos, count)
  }

  method DecodeArrayOfBulk(d: Bytes) returns (r: Decoded)
    ensures r == Decode(d)
  {
    if |d| == 0 {
      return NeedMore;
    }
    if d[0] != STAR {
      return Malformed;
    }
    var header := ParseIntegerLine(d, 1);
    if header.None? {
      var crlf := FindCRLF(d, 1);
      return if crlf.None? then NeedMore else Malformed;
    }
    var (count, pos) := header.value;
    if count < 0 {
      return Malformed;
    }
    r := DecodeTokens(d, pos, count);
  }

  /** The token loop of DecodeArrayOfBulk. */
  method DecodeTokens(d: Bytes, start: nat, count: nat) returns (r: Decoded)
    requires start <= |d|
    ensures r == DecodeBulks(d, start, count)
  {
    hide DecodeBulk;
    var pos := start;
    var tokens: seq<Bytes> := [];
    var i := 0;
    while i < count
      invariant 0 <= i <= count && 0 <= pos <= |d|
      invariant DecodeBulks(d, start, count) == Prepend(tokens, DecodeBulks(d, pos, count - i))
    {
      var b := DecodeOneBulk(d, pos);
      if !b.Frame? {
        return b;
      }
      PrependTwice(tokens, b.tokens, DecodeBulks(d, b.consumed, count - i - 1));
      tokens := tokens + b.tokens;
      pos := b.consumed;
      i := i + 1;
    }
    r := Frame(tokens, pos);
  }

  /** The body of the decode loop: `$<len>`, the payload, the closing CRLF. */
  method DecodeOneBulk(d: Bytes, pos: nat) returns (r: Decoded)
    ensures r == DecodeBulk(d, pos)
  {
    if pos >= |d| {
      return NeedMore;
    }
    if d[pos] != DOLLAR {
      return Malformed;
    }
    var line := ParseIntegerLine(d, pos + 1);
    if line.None? {
      var crlf := FindCRLF(d, pos + 1);
      return if crlf.None? then NeedMore else Malformed;
    }
    var (len, body) := line.value;
    if len < 0 {
      return Malformed;
    }
    if body + len + 2 > |d| {
      return NeedMore;
    }
    if d[body + len] != CR || d[body + len + 1] != LF {
      return Malformed;
    }
    r := Frame([d[body..body + len]], body + len + 2);
  }

  lemma PrependTwice(a: seq<Bytes>, b: seq<Bytes>, r: Decoded)
    ensures Prepend(a, Prepend(b, r)) == Prepend(a + b, r)
  {
    if r.Frame? {
      assert a + (b + r.tokens) == (a + b) + r.tokens;
    }
  }

  // ---- verdicts survive appended bytes --------------------------------------------------

  lemma {:induction false} FindCrlfStable(d: Bytes, e: Bytes, pos: nat)
    requires FindCrlf(d, pos).Some?
    ensures FindCrlf(d + e, pos) == FindCrlf(d, pos)
  {
    var i := FindCrlf(d, pos).value;
    assert CrlfAt(d + e, i);
    var j := FindCrlf(d + e, pos).value;
    assert CrlfAt(d, j);
  }

  lemma IntegerLineStable(d: Bytes, e: Bytes, pos: nat)
    requires FindCrlf(d, pos).Some?
    ensures IntegerLine(d + e, pos) == IntegerLine(d, pos)
    ensures FindCrlf(d + e, pos).Some?
  {
    FindCrlfStable(d, e, pos);
    var i := FindCrlf(d, pos).value;
    assert (d + e)[pos..i] == d[pos..i];
  }

  lemma DecodeBulkStable(d: Bytes, e: Bytes, pos: nat)
    requires DecodeBulk(d, pos) != NeedMore
    ensures DecodeBulk(d + e, pos) == DecodeBulk(d, pos)
  {
    if d[pos] == DOLLAR {
      IntegerLineStable(d, e, pos + 1);
      match IntegerLine(d, pos + 1)
      case None =>
      case Some((len, body)) =>
        if len >= 0 {
          assert (d + e)[body..body + len] == d[body..body + len];
        }
    }
  }

  lemma {:induction false} DecodeBulksStable(d: Bytes, e: Bytes, pos: nat, count: nat)
    requires pos <= |d|
    requires DecodeBulks(d, pos, count) != NeedMore
    ensures DecodeBulks(d + e, pos, count) == DecodeBulks(d, pos, count)
    decreases count
  {
    hide DecodeBulk;
    if count > 0 {
      DecodeBulkStable(d, e, pos);
      var b := DecodeBulk(d, pos);
      if b.Frame? {
        DecodeBulksStable(d, e, b.consumed, count - 1);
      }
    }
  }

  /** A verdict other than "need more" never changes when more bytes arrive. */
  lemma DecodeStable(d: Bytes, e: Bytes)
    requires Decode(d) != NeedMore
    ensures Decode(d + e) == Decode(d)
  {
    if d[0] == STAR {
      IntegerLineStable(d, e, 1);
      match IntegerLine(d, 1)
      case None =>
      case Some((count, pos)) =>
        if count >= 0 {
          DecodeBulksStable(d, e, pos, count);
        }
    }
  }

  /** Every proper prefix of a whole frame is incomplete, never malformed. */
  lemma ProperPrefixNeedsMore(frame: Bytes, n: nat)
    requires Decode(frame).Frame? && Decode(frame).consumed == |frame|
    requires n < |frame|
    ensures Decode(frame[..n]) == NeedMore
  {
    assert frame[..n] + frame[n..] == frame;
    if Decode(frame[..n]) != NeedMore {
      DecodeStable(frame[..n], frame[n..]);
    }
  }

  // ---- encoding -------------------------------------------------------------------------

  function Bulk(s: Bytes): Bytes { [DOLLAR] + Decimal(|s|) + CRLF + s + CRLF }

  function Bulks(ts: seq<Bytes>): Bytes {
    if ts == [] then [] else Bulk(ts[0]) + Bulks(ts[1..])
  }

  lemma {:induction false} BulksSnoc(ts: seq<Bytes>, t: Bytes)
    ensures Bulks(ts + [t]) == Bulks(ts) + Bulk(t)
  {
    hide Bulk;
    if ts == [] {
      assert [t][1..] == [];
    } else {
      BulksSnoc(ts[1..], t);
      assert (ts + [t])[1..] == ts[1..] + [t];
    }
  }

  function ArrayHeader(n: nat): Bytes { [STAR] + Decimal(n) + CRLF }

  function Array(ts: seq<Bytes>): Bytes { ArrayHeader(|ts|) + Bulks(ts) }

  method AppendBulkString(out: Bytes, s: Bytes) returns (r: Bytes)
    ensures r == out + Bulk(s)
  {
    r := out + ([DOLLAR] + Decimal(|s|) + CRLF);
    r := r + s;
    r := r + CRLF;
    assert r == out + Bulk(s);
  }

  method AppendArrayHeader(out: Bytes, n: nat) returns (r: Bytes)
    ensures r == out + ArrayHeader(n)
  {
    r := out + ([STAR] + Decimal(n) + CRLF);
  }

  /** A printed length line parses back to its number, whatever surrounds it. */
  lemma IntegerLineOfDecimal(pre: Bytes, n: nat, post: Bytes)
    ensures IntegerLine(pre + Decimal(n) + CRLF + post, |pre|)
         == Some((n as int, |pre| + |Decimal(n)| + 2))
  {
    hide Decimal, FindCrlf, IntegerLine, Value;
    var t := Decimal(n);
    ValueOfDecimal(n);
    LineEnds(pre + t + CRLF + post, pre, t, post);
    DigitsLine(pre + t + CRLF + post, |pre|, |pre| + |t|, t);
  }

  lemma DigitsLine(d: Bytes, pos: nat, e: nat, t: Bytes)
    requires FindCrlf(d, pos) == Some(e) && pos <= e <= |d| && d[pos..e] == t && t != [] && AllDigits(t)
    ensures IntegerLine(d, pos) == Some((Value(t) as int, e + 2))
  {
    hide Value, FindCrlf;
    assert IsDigit(t[0]);
  }

  /** The first CRLF after digits is the one behind them. */
  lemma LineEnds(d: Bytes, pre: Bytes, t: Bytes, post: Bytes)
    requires d == pre + t + CRLF + post && AllDigits(t)
    ensures FindCrlf(d, |pre|) == Some(|pre| + |t|) && d[|pre|..|pre| + |t|] == t
  {
    var e := |pre| + |t|;
    assert CrlfAt(d, e);
    assert forall k | |pre| <= k < e :: d[k] == t[k - |pre|];
  }

  lemma BulkRoundTrip(pre: Bytes, t: Bytes, post: Bytes)
    ensures DecodeBulk(pre + Bulk(t) + post, |pre|) == Frame([t], |pre| + |Bulk(t)|)
  {
    var d := pre + Bulk(t) + post;
    var line := pre + [DOLLAR];
    assert d == line + Decimal(|t|) + CRLF + (t + CRLF + post);
    IntegerLineOfDecimal(line, |t|, t + CRLF + post);
    var body := |line| + |Decimal(|t|)| + 2;
    assert d == (line + Decimal(|t|) + CRLF) + t + (CRLF + post);
    assert d[body..body + |t|] == t;
  }

  lemma FirstBulk(ts: seq<Bytes>)
    ensures Bulks(ts) == if ts == [] then [] else Bulk(ts[0]) + Bulks(ts[1..])
  {}

  lemma {:induction false} BulksRoundTrip(pre: Bytes, ts: seq<Bytes>, post: Bytes)
    ensures DecodeBulks(pre + Bulks(ts) + post, |pre|, |ts|) == Frame(ts, |pre| + |Bulks(ts)|)
    decreases |ts|
  {
    hide DecodeBulk, Bulk, Bulks;
    FirstBulk(ts);
    if ts == [] {
      assert |pre| + |Bulks(ts)| == |pre|;
    } else {
      var d := pre + Bulks(ts) + post;
      assert d == pre + Bulk(ts[0]) + (Bulks(ts[1..]) + post);
      BulkRoundTrip(pre, ts[0], Bulks(ts[1..]) + post);
      assert d == (pre + Bulk(ts[0])) + Bulks(ts[1..]) + post;
      BulksRoundTrip(pre + Bulk(ts[0]), ts[1..], post);
      assert [ts[0]] + ts[1..] == ts;
    }
  }

  /** Decoding an encoded array returns its tokens and consumes exactly its bytes. */
  lemma ArrayRoundTrip(ts: seq<Bytes>, rest: Bytes)
    ensures Decode(Array(ts) + rest) == Frame(ts, |Array(ts)|)
  {
    var d := Array(ts) + rest;
    assert d == [STAR] + Decimal(|ts|) + CRLF + (Bulks(ts) + rest);
    IntegerLineOfDecimal([STAR], |ts|, Bulks(ts) + rest);
    assert d == ArrayHeader(|ts|) + Bulks(ts) + rest;
    BulksRoundTrip(ArrayHeader(|ts|), ts, rest);
  }
}
