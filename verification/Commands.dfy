/** Write commands, their wire form, and the mapping from tokens to requests. */
module Commands {
  import opened ByteStrings
  import Resp

  /** The four commands that change data. */
  datatype Cmd =
    | Set(key: Bytes, element: Bytes)
    | Del(key: Bytes)
    | Vset(vector: Bytes, userKey: Bytes, question: Bytes, answer: Bytes)
    | Vdel(userKey: Bytes)

  datatype Verb = VSET | VGET | VDEL | SET | DEL | GET | PING | ECHO | SAVE | PSYNC | UNKNOWN

  datatype Refusal = EmptyRequest | UnknownCommand | WrongArity | BadValue

  /** `Other` is a request that is not a write; the numerals inside VGET and PSYNC are not read. */
  datatype Request = Write(cmd: Cmd) | Other(verb: Verb) | Refused(why: Refusal)

  const SET_NAME: Bytes := [83, 69, 84]
  const DEL_NAME: Bytes := [68, 69, 76]
  const GET_NAME: Bytes := [71, 69, 84]
  const VSET_NAME: Bytes := [86, 83, 69, 84]
  const VGET_NAME: Bytes := [86, 71, 69, 84]
  const VDEL_NAME: Bytes := [86, 68, 69, 76]
  const PING_NAME: Bytes := [80, 73, 78, 71]
  const ECHO_NAME: Bytes := [69, 67, 72, 79]
  const SAVE_NAME: Bytes := [83, 65, 86, 69]
  const PSYNC_NAME: Bytes := [80, 83, 89, 78, 67]

  function ToLower(b: byte): byte { if 65 <= b <= 90 then b + 32 else b }

  predicate EqualsIgnoreCase(a: Bytes, b: Bytes) {
    |a| == |b| && forall i | 0 <= i < |a| :: ToLower(a[i]) == ToLower(b[i])
  }

  function ParseVerb(name: Bytes): Verb {
    if EqualsIgnoreCase(name, VSET_NAME) then VSET
    else if EqualsIgnoreCase(name, VGET_NAME) then VGET
    else if EqualsIgnoreCase(name, VDEL_NAME) then VDEL
    else if EqualsIgnoreCase(name, SET_NAME) then SET
    else if EqualsIgnoreCase(name, DEL_NAME) then DEL
    else if EqualsIgnoreCase(name, GET_NAME) then GET
    else if EqualsIgnoreCase(name, PING_NAME) then PING
    else if EqualsIgnoreCase(name, ECHO_NAME) then ECHO
    else if EqualsIgnoreCase(name, SAVE_NAME) then SAVE
    else if EqualsIgnoreCase(name, PSYNC_NAME) then PSYNC
    else UNKNOWN
  }

  function FromTokens(t: seq<Bytes>): Request {
    if t == [] then Refused(EmptyRequest)
    else
      match ParseVerb(t[0])
      case VSET =>
        if |t| != 5 then Refused(WrongArity)
        else if t[2] == [] then Refused(BadValue)
        else Write(Vset(t[1], t[2], t[3], t[4]))
      case VDEL =>
        if |t| != 2 then Refused(WrongArity)
        else if t[1] == [] then Refused(BadValue)
        else Write(Vdel(t[1]))
      case SET =>
        if |t| != 3 then Refused(WrongArity)
        else if t[1] == [] then Refused(BadValue)
        else Write(Set(t[1], t[2]))
      case DEL =>
        if |t| != 2 then Refused(WrongArity)
        else if t[1] == [] then Refused(BadValue)
        else Write(Del(t[1]))
      case GET =>
        if |t| != 2 then Refused(WrongArity)
        else if t[1] == [] then Refused(BadValue)
        else Other(GET)
      case PING => if |t| > 2 then Refused(WrongArity) else Other(PING)
      case ECHO => if |t| != 2 then Refused(WrongArity) else Other(ECHO)
      case SAVE => if |t| != 1 then Refused(WrongArity) else Other(SAVE)
      case VGET => if |t| != 3 then Refused(WrongArity) else Other(VGET)
      case PSYNC =>
        if |t| != 1 && |t| != 3 then Refused(WrongArity)
        else if |t| == 3 && (t[1] == [] || t[2] == []) then Refused(BadValue)
        else Other(PSYNC)
      case UNKNOWN => Refused(UnknownCommand)
  }

  /** The key a write is about is never empty; no other payload is restricted. */
  predicate HasKey(c: Cmd) {
    if c.Set? || c.Del? then c.key != [] else c.userKey != []
  }

  function Tokens(c: Cmd): seq<Bytes> {
    match c
    case Set(key, element) => [SET_NAME, key, element]
    case Del(key) => [DEL_NAME, key]
    case Vset(vector, userKey, question, answer) => [VSET_NAME, vector, userKey, question, answer]
    case Vdel(userKey) => [VDEL_NAME, userKey]
  }

  /** The frame that goes, byte for byte, to the append-only file and to every replica. */
  function Encode(c: Cmd): (f: Bytes)
    ensures f != []
  {
    Resp.Array(Tokens(c))
  }

  /** The first i tokens of a command have been written. */
  ghost predicate Written(out: Bytes, c: Cmd, i: nat) {
    i <= |Tokens(c)| && out == Resp.ArrayHeader(|Tokens(c)|) + Resp.Bulks(Tokens(c)[..i])
  }

  method AppendToken(out: Bytes, ghost c: Cmd, ghost i: nat, t: Bytes) returns (r: Bytes)
    requires Written(out, c, i) && i < |Tokens(c)| && t == Tokens(c)[i]
    ensures Written(r, c, i + 1)
  {
    r := Resp.AppendBulkString(out, t);
    Resp.BulksSnoc(Tokens(c)[..i], t);
    assert Tokens(c)[..i + 1] == Tokens(c)[..i] + [t];
  }

  lemma NothingWritten(c: Cmd)
    ensures Written([] + Resp.ArrayHeader(|Tokens(c)|), c, 0)
  {}

  lemma AllWritten(out: Bytes, c: Cmd)
    requires Written(out, c, |Tokens(c)|)
    ensures out == Encode(c)
  {
    assert Tokens(c)[..|Tokens(c)|] == Tokens(c);
  }

  method EncodeWriteCommand(c: Cmd) returns (out: Bytes)
    ensures out == Encode(c)
  {
    hide Written, Resp.ArrayHeader, Resp.Bulks;
    NothingWritten(c);
    match c {
      case Set(key, element) =>
        out := Resp.AppendArrayHeader([], 3);
        out := AppendToken(out, c, 0, SET_NAME);
        out := AppendToken(out, c, 1, key);
        out := AppendToken(out, c, 2, element);
      case Del(key) =>
        out := Resp.AppendArrayHeader([], 2);
        out := AppendToken(out, c, 0, DEL_NAME);
        out := AppendToken(out, c, 1, key);
      case Vset(vector, userKey, question, answer) =>
        out := Resp.AppendArrayHeader([], 5);
        out := AppendToken(out, c, 0, VSET_NAME);
        out := AppendToken(out, c, 1, vector);
        out := AppendToken(out, c, 2, userKey);
        out := AppendToken(out, c, 3, question);
        out := AppendToken(out, c, 4, answer);
      case Vdel(userKey) =>
        out := Resp.AppendArrayHeader([], 2);
        out := AppendToken(out, c, 0, VDEL_NAME);
        out := AppendToken(out, c, 1, userKey);
    }
    AllWritten(out, c);
  }

  /** Names are recognised in any letter case and no two verbs share a name. */
  lemma TokensRoundTrip(c: Cmd)
    ensures FromTokens(Tokens(c)) == if HasKey(c) then Write(c) else Refused(BadValue)
  {
    assert ToLower(DEL_NAME[0]) != ToLower(SET_NAME[0]);
    assert ToLower(VDEL_NAME[1]) != ToLower(VSET_NAME[1]);
    assert ToLower(VDEL_NAME[1]) != ToLower(VGET_NAME[1]);
  }

  // ---- which tokens are which request ------------------------------------------------------------------------

  /** The name with any of its letters in lower case. */
  predicate Casing(t: Bytes, name: Bytes) {
    |t| == |name| && forall i | 0 <= i < |t| :: t[i] == name[i] || (65 <= name[i] <= 90 && t[i] == name[i] + 32)
  }

  function NameOf(v: Verb): Bytes
    requires v != UNKNOWN
  {
    match v
    case VSET => VSET_NAME
    case VGET => VGET_NAME
    case VDEL => VDEL_NAME
    case SET => SET_NAME
    case DEL => DEL_NAME
    case GET => GET_NAME
    case PING => PING_NAME
    case ECHO => ECHO_NAME
    case SAVE => SAVE_NAME
    case PSYNC => PSYNC_NAME
  }

  /** A name is an upper-case word. */
  lemma NamesAreWords(v: Verb)
    requires v != UNKNOWN
    ensures forall i | 0 <= i < |NameOf(v)| :: 65 <= NameOf(v)[i] <= 90
  {}

  lemma CasingIs(t: Bytes, name: Bytes)
    requires forall i | 0 <= i < |name| :: 65 <= name[i] <= 90
    ensures EqualsIgnoreCase(t, name) <==> Casing(t, name)
  {}

  lemma NamesDiffer(v: Verb, w: Verb)
    requires v != UNKNOWN && w != UNKNOWN && |NameOf(v)| == |NameOf(w)|
    requires forall i | 0 <= i < |NameOf(v)| :: NameOf(v)[i] == NameOf(w)[i]
    ensures v == w
  {
    assert |NameOf(v)| > 1 && NameOf(v)[0] == NameOf(w)[0] && NameOf(v)[1] == NameOf(w)[1];
  }

  /** A verb is recognised exactly in the casings of its name. */
  lemma VerbIs(t: Bytes, v: Verb)
    requires v != UNKNOWN
    ensures ParseVerb(t) == v <==> Casing(t, NameOf(v))
  {
    hide Casing, NameOf;
    if Casing(t, NameOf(v)) {
      CasingParses(t, v);
    }
    if ParseVerb(t) == v {
      ParsedCasing(t);
    }
  }

  lemma ParsedCasing(t: Bytes)
    ensures ParseVerb(t) != UNKNOWN ==> Casing(t, NameOf(ParseVerb(t)))
  {
    hide Casing, EqualsIgnoreCase;
    var v := ParseVerb(t);
    if v != UNKNOWN {
      NamesAreWords(v);
      CasingIs(t, NameOf(v));
    }
  }

  lemma CasingParses(t: Bytes, v: Verb)
    requires v != UNKNOWN && Casing(t, NameOf(v))
    ensures ParseVerb(t) == v
  {
    hide EqualsIgnoreCase;
    NamesAreWords(v);
    CasingIs(t, NameOf(v));
    assert ParseVerb(t) != UNKNOWN;
    ParsedCasing(t);
    OneCasing(t, v, ParseVerb(t));
  }

  lemma OneCasing(t: Bytes, v: Verb, w: Verb)
    requires v != UNKNOWN && w != UNKNOWN && Casing(t, NameOf(v)) && Casing(t, NameOf(w))
    ensures v == w
  {
    NamesAreWords(v);
    NamesAreWords(w);
    forall i | 0 <= i < |t| ensures NameOf(v)[i] == NameOf(w)[i] {}
    hide Casing;
    NamesDiffer(v, w);
  }

  /** Exactly which tokens are a write: its name in any casing and its payloads as they are, the key not empty. */
  lemma WritesAre(t: seq<Bytes>, c: Cmd)
    ensures FromTokens(t) == Write(c)
            <==> HasKey(c) && |t| == |Tokens(c)| && Casing(t[0], Tokens(c)[0]) && t[1..] == Tokens(c)[1..]
  {
    hide Casing, ParseVerb;
    if t != [] {
      VerbIs(t[0], VSET);
      VerbIs(t[0], VDEL);
      VerbIs(t[0], SET);
      VerbIs(t[0], DEL);
    }
  }

  /** How many payloads a request has, where that is fixed. */
  predicate Arity(v: Verb, n: nat) {
    match v
    case VSET => n == 4
    case SET => n == 2
    case VGET => n == 2
    case VDEL => n == 1
    case DEL => n == 1
    case GET => n == 1
    case ECHO => n == 1
    case PING => n <= 1
    case SAVE => n == 0
    case PSYNC => n == 0 || n == 2
    case UNKNOWN => true
  }

  /** Why a request is refused: no token, an unknown verb, the wrong number of payloads, or an empty key. */
  lemma RefusedFor(t: seq<Bytes>)
    ensures FromTokens(t) == Refused(EmptyRequest) <==> t == []
    ensures FromTokens(t) == Refused(UnknownCommand) <==> t != [] && ParseVerb(t[0]) == UNKNOWN
    ensures FromTokens(t) == Refused(WrongArity) <==> t != [] && !Arity(ParseVerb(t[0]), |t| - 1)
    ensures FromTokens(t) == Refused(BadValue)
            <==> && t != [] && Arity(ParseVerb(t[0]), |t| - 1)
                 && match ParseVerb(t[0])
                    case VSET => t[2] == []
                    case PSYNC => |t| == 3 && (t[1] == [] || t[2] == [])
                    case SET => t[1] == []
                    case DEL => t[1] == []
                    case VDEL => t[1] == []
                    case GET => t[1] == []
                    case _ => false
  {
    hide ParseVerb;
  }

  /** A write survives the wire unchanged exactly when its key is not empty. */
  lemma WireRoundTrip(c: Cmd, rest: Bytes)
    ensures Resp.Decode(Encode(c) + rest) == Resp.Frame(Tokens(c), |Encode(c)|)
    ensures FromTokens(Tokens(c)) == Write(c) <==> HasKey(c)
  {
    Resp.ArrayRoundTrip(Tokens(c), rest);
    TokensRoundTrip(c);
  }
}
