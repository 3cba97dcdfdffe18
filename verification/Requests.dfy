/** RequestContext: the fields a request is read into, as the parser fills and clears them. */
module Requests {
  import opened ByteStrings
  import opened Commands

  datatype Reading = Okay | Failed(why: Refusal)

  /** Byte by byte, ASCII letters in either case. */
  method SameName(a: Bytes, b: Bytes) returns (same: bool)
    ensures same == EqualsIgnoreCase(a, b)
  {
    if |a| != |b| {
      return false;
    }
    var i := 0;
    while i < |a|
      invariant 0 <= i <= |a|
      invariant forall k | 0 <= k < i :: ToLower(a[k]) == ToLower(b[k])
    {
      if ToLower(a[i]) != ToLower(b[i]) {
        return false;
      }
      i := i + 1;
    }
    return true;
  }

  method ParseCommandType(name: Bytes) returns (v: Verb)
    ensures v == ParseVerb(name)
  {
    hide EqualsIgnoreCase;
    var same := SameName(name, VSET_NAME);
    if same {
      return VSET;
    }
    same := SameName(name, VGET_NAME);
    if same {
      return VGET;
    }
    same := SameName(name, VDEL_NAME);
    if same {
      return VDEL;
    }
    same := SameName(name, SET_NAME);
    if same {
      return SET;
    }
    same := SameName(name, DEL_NAME);
    if same {
      return DEL;
    }
    same := SameName(name, GET_NAME);
    if same {
      return GET;
    }
    same := SameName(name, PING_NAME);
    if same {
      return PING;
    }
    same := SameName(name, ECHO_NAME);
    if same {
      return ECHO;
    }
    same := SameName(name, SAVE_NAME);
    if same {
      return SAVE;
    }
    same := SameName(name, PSYNC_NAME);
    if same {
      return PSYNC;
    }
    return UNKNOWN;
  }

  class RequestContext {
    var verb: Verb
    var vectorBlob: Bytes
    var userKey: Bytes
    var question: Bytes
    var answer: Bytes
    var key: Bytes
    var element: Bytes
    var psyncReplid: Bytes

    /** No field holds anything from an earlier request. */
    ghost predicate Cleared()
      reads this
    {
      && vectorBlob == [] && userKey == [] && question == [] && answer == []
      && key == [] && element == [] && psyncReplid == []
    }

    /** The fields hold this command and nothing else. */
    ghost predicate Holds(c: Cmd)
      reads this
    {
      match c
      case Set(k, e) => verb == SET && key == k && element == e && vectorBlob == [] && userKey == [] && question == [] && answer == [] && psyncReplid == []
      case Del(k) => verb == DEL && key == k && element == [] && vectorBlob == [] && userKey == [] && question == [] && answer == [] && psyncReplid == []
      case Vset(v, u, q, a) =>
        verb == VSET && vectorBlob == v && userKey == u && question == q && answer == a && key == [] && element == [] && psyncReplid == []
      case Vdel(u) => verb == VDEL && userKey == u && vectorBlob == [] && question == [] && answer == [] && key == [] && element == [] && psyncReplid == []
    }

    constructor ()
      ensures verb == UNKNOWN && Cleared()
    {
      verb, vectorBlob, userKey, question, answer, key, element, psyncReplid := UNKNOWN, [], [], [], [], [], [], [];
    }

    method ClearOut(v: Verb)
      modifies this
      ensures verb == v && Cleared()
    {
      verb, vectorBlob, userKey, question, answer, key, element, psyncReplid := v, [], [], [], [], [], [], [];
    }

    /** A write command's fields are exactly its tokens; a refused request leaves no field set, so nothing
        of it or of an earlier one can be applied. `numeral` says whether the number inside a VGET or
        PSYNC could be read. */
    method FromTokens(tokens: seq<Bytes>, numeral: bool) returns (st: Reading)
      modifies this
      ensures match Commands.FromTokens(tokens)
              case Write(c) => st == Okay && Holds(c)
              case Refused(why) => st == Failed(why) && (why != EmptyRequest ==> Cleared())
              case Other(v) =>
                && verb == v
                && st == (if !numeral && (v == VGET || (v == PSYNC && |tokens| == 3)) then Failed(BadValue) else Okay)
                && (st != Okay ==> Cleared())
                && vectorBlob == (if st == Okay && v == VGET then tokens[1] else [])
                && key == (if st == Okay && v == GET then tokens[1] else [])
                && element == (if v == ECHO || (v == PING && |tokens| == 2) then tokens[1] else [])
                && psyncReplid == (if st == Okay && v == PSYNC && |tokens| == 3 then tokens[1] else [])
                && userKey == [] && question == [] && answer == []
    {
      hide EqualsIgnoreCase;
      if tokens == [] {
        return Failed(EmptyRequest);
      }
      var v := ParseCommandType(tokens[0]);
      ClearOut(v);
      match v {
        case VSET =>
          if |tokens| != 5 {
            return Failed(WrongArity);
          }
          if tokens[2] == [] {
            return Failed(BadValue);
          }
          vectorBlob, userKey, question, answer := tokens[1], tokens[2], tokens[3], tokens[4];
          return Okay;
        case VGET =>
          if |tokens| != 3 {
            return Failed(WrongArity);
          }
          if !numeral {
            return Failed(BadValue);
          }
          vectorBlob := tokens[1];
          return Okay;
        case VDEL =>
          if |tokens| != 2 {
            return Failed(WrongArity);
          }
          if tokens[1] == [] {
            return Failed(BadValue);
          }
          userKey := tokens[1];
          return Okay;
        case SET =>
          if |tokens| != 3 {
            return Failed(WrongArity);
          }
          key, element := tokens[1], tokens[2];
          if key == [] {
            ClearOut(v);
            return Failed(BadValue);
          }
          return Okay;
        case GET =>
          st := KeyOnly(tokens);
        case DEL =>
          st := KeyOnly(tokens);
        case PING =>
          if |tokens| > 2 {
            return Failed(WrongArity);
          }
          if |tokens| == 2 {
            element := tokens[1];
          }
          return Okay;
        case ECHO =>
          if |tokens| != 2 {
            return Failed(WrongArity);
          }
          element := tokens[1];
          return Okay;
        case SAVE =>
          return if |tokens| != 1 then Failed(WrongArity) else Okay;
        case PSYNC =>
          if |tokens| != 1 && |tokens| != 3 {
            return Failed(WrongArity);
          }
          if |tokens| == 3 {
            if tokens[1] == [] || tokens[2] == [] {
              return Failed(BadValue);
            }
            psyncReplid := tokens[1];
            if !numeral {
              ClearOut(v);
              return Failed(BadValue);
            }
          }
          return Okay;
        case UNKNOWN =>
          return Failed(UnknownCommand);
      }
    }

    /** GET and DEL. */
    method KeyOnly(tokens: seq<Bytes>) returns (st: Reading)
      requires Cleared()
      modifies this`key, this`element, this`vectorBlob, this`userKey, this`question, this`answer, this`psyncReplid
      ensures verb == old(verb)
      ensures st == if |tokens| != 2 then Failed(WrongArity) else if tokens[1] == [] then Failed(BadValue) else Okay
      ensures if st == Okay then key == tokens[1] else Cleared()
      ensures vectorBlob == [] && userKey == [] && question == [] && answer == [] && element == [] && psyncReplid == []
    {
      if |tokens| != 2 {
        return Failed(WrongArity);
      }
      key := tokens[1];
      if key == [] {
        return Failed(BadValue);
      }
      return Okay;
    }
  }
}
