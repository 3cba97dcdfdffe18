/** Octets, octet strings and the decimal notation used in every RESP length line. */
module ByteStrings {

  newtype byte = x: int | 0 <= x < 0x100

  type Bytes = seq<byte>

  datatype Option<+T> = None | Some(value: T)

  const CR: byte := 13
  const LF: byte := 10
  const CRLF: Bytes := [13, 10]
  const SPACE: byte := 32
  const PLUS: byte := 43    // '+'
  const MINUS: byte := 45   // '-'
  const STAR: byte := 42    // '*'
  const DOLLAR: byte := 36  // '$'

  /** The bytes of a stream that arrived in these pieces. */
  function Joined(chunks: seq<Bytes>): Bytes
    decreases |chunks|
  {
    if chunks == [] then [] else Joined(chunks[..|chunks| - 1]) + chunks[|chunks| - 1]
  }

  lemma JoinedOne(d: Bytes)
    ensures Joined([d]) == d
  {
    assert [d][..0] == [];
    assert [] + d == d;
  }

  predicate IsDigit(b: byte) { 48 <= b <= 57 }

  predicate AllDigits(s: Bytes) { forall i | 0 <= i < |s| :: IsDigit(s[i]) }

  /** What a left-to-right `value = value * 10 + digit` loop computes. */
  function Value(s: Bytes): nat
    requires AllDigits(s)
  {
    if s == [] then 0 else Value(s[..|s| - 1]) * 10 + (s[|s| - 1] as int - 48)
  }

  lemma ValueOfSnoc(s: Bytes, b: byte)
    requires AllDigits(s) && IsDigit(b)
    ensures AllDigits(s + [b])
    ensures Value(s + [b]) == Value(s) * 10 + (b as int - 48)
  {
    assert (s + [b])[..|s|] == s;
  }

  /** The decimal numeral that printf's %u, %zu and %lld produce for n. */
  function Decimal(n: nat): (s: Bytes)
    ensures s != [] && AllDigits(s)
  {
    if n < 10 then [(48 + n) as byte] else Decimal(n / 10) + [(48 + n % 10) as byte]
  }

  lemma {:induction false} ValueOfDecimal(n: nat)
    ensures Value(Decimal(n)) == n
  {
    if n >= 10 {
      var s := Decimal(n);
      assert s[..|s| - 1] == Decimal(n / 10);
      ValueOfDecimal(n / 10);
    } else {
      assert Decimal(n)[..0] == [];
    }
  }
}
