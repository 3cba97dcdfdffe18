/** What clients can see of a server: the string map and the semantic cache by user key,
    with the effect of write commands on it. Ids, access order and capacity are not visible. */
module Views {
  import opened ByteStrings
  import opened Commands

  datatype Entry = Entry(vector: Bytes, question: Bytes, answer: Bytes)

  datatype View = View(kv: map<Bytes, Bytes>, cache: map<Bytes, Entry>)

  function Effect(v: View, c: Cmd): View {
    match c
    case Set(key, element) => v.(kv := v.kv[key := element])
    case Del(key) => v.(kv := v.kv - {key})
    case Vset(vector, userKey, question, answer) =>
      v.(cache := v.cache[userKey := Entry(vector, question, answer)])
    case Vdel(userKey) => v.(cache := v.cache - {userKey})
  }

  /** A log applied in order. */
  function Effects(v: View, log: seq<Cmd>): View {
    if log == [] then v
    else Effect(Effects(v, log[..|log| - 1]), log[|log| - 1])
  }

  lemma {:induction false} EffectsConcat(v: View, a: seq<Cmd>, b: seq<Cmd>)
    ensures Effects(v, a + b) == Effects(Effects(v, a), b)
  {
    if b == [] {
      assert a + b == a;
    } else {
      var n := |b| - 1;
      assert (a + b)[..|a + b| - 1] == a + b[..n];
      EffectsConcat(v, a, b[..n]);
    }
  }

  lemma EffectsSnoc(v: View, log: seq<Cmd>, c: Cmd)
    ensures Effects(v, log + [c]) == Effect(Effects(v, log), c)
  {
    assert (log + [c])[..|log|] == log;
  }

  lemma EffectsOne(v: View, c: Cmd)
    ensures Effects(v, [c]) == Effect(v, c)
  {
    assert [c][..0] == [];
  }

  // ---- a write overwrites its whole place ------------------------------------------------

  /** A place a command can write: a string key or a cached user key. */
  datatype Place = Str(key: Bytes) | Cached(userKey: Bytes)

  function PlaceOf(c: Cmd): Place {
    if c.Set? || c.Del? then Str(c.key) else Cached(c.userKey)
  }

  function Places(log: seq<Cmd>): set<Place> {
    if log == [] then {} else Places(log[..|log| - 1]) + {PlaceOf(log[|log| - 1])}
  }

  datatype Content = Absent | Text(s: Bytes) | Answer(e: Entry)

  function At(v: View, p: Place): Content {
    match p
    case Str(k) => if k in v.kv then Text(v.kv[k]) else Absent
    case Cached(k) => if k in v.cache then Answer(v.cache[k]) else Absent
  }

  /** x and y show the same everywhere except perhaps at the places in `at`. */
  ghost predicate AgreeExcept(x: View, y: View, at: set<Place>) {
    forall p | p !in at :: At(x, p) == At(y, p)
  }

  function Left(c: Cmd): Content {
    match c
    case Set(_, element) => Text(element)
    case Vset(vector, _, question, answer) => Answer(Entry(vector, question, answer))
    case Del(_) => Absent
    case Vdel(_) => Absent
  }

  lemma EffectAt(v: View, c: Cmd, p: Place)
    ensures At(Effect(v, c), p) == if p == PlaceOf(c) then Left(c) else At(v, p)
  {}

  lemma EqualViews(x: View, y: View)
    requires AgreeExcept(x, y, {})
    ensures x == y
  {
    forall k: Bytes ensures k in x.kv <==> k in y.kv
                    ensures k in x.kv ==> x.kv[k] == y.kv[k] {
      assert At(x, Str(k)) == At(y, Str(k));
    }
    forall k: Bytes ensures k in x.cache <==> k in y.cache
                    ensures k in x.cache ==> x.cache[k] == y.cache[k] {
      assert At(x, Cached(k)) == At(y, Cached(k));
    }
    assert x.kv == y.kv && x.cache == y.cache;
  }

  lemma {:induction false} EffectsHide(x: View, y: View, at: set<Place>, log: seq<Cmd>)
    requires AgreeExcept(x, y, at)
    ensures AgreeExcept(Effects(x, log), Effects(y, log), at - Places(log))
  {
    if log != [] {
      var n := |log| - 1;
      EffectsHide(x, y, at, log[..n]);
      forall p | p !in at - Places(log) ensures At(Effects(x, log), p) == At(Effects(y, log), p) {
        EffectAt(Effects(x, log[..n]), log[n], p);
        EffectAt(Effects(y, log[..n]), log[n], p);
        assert p == PlaceOf(log[n]) || p !in at - Places(log[..n]);
      }
    }
  }

  lemma {:induction false} EffectsElsewhere(v: View, log: seq<Cmd>)
    ensures AgreeExcept(Effects(v, log), v, Places(log))
  {
    if log != [] {
      EffectsElsewhere(v, log[..|log| - 1]);
    }
  }

  /** Exactly when a log erases the difference between two starting points: they may differ
      only at places the log writes. */
  lemma SameAfterLog(x: View, y: View, log: seq<Cmd>)
    ensures Effects(x, log) == Effects(y, log) <==> AgreeExcept(x, y, Places(log))
  {
    EffectsElsewhere(x, log);
    EffectsElsewhere(y, log);
    if AgreeExcept(x, y, Places(log)) {
      EffectsHide(x, y, Places(log), log);
      assert Places(log) - Places(log) == {};
      EqualViews(Effects(x, log), Effects(y, log));
    }
  }

  /** Replaying a log over a state that already contains any prefix of it changes nothing:
      the reason a snapshot may overlap the log that follows it. */
  lemma Overlap(v: View, a: seq<Cmd>, b: seq<Cmd>)
    ensures Effects(Effects(v, a), a + b) == Effects(v, a + b)
  {
    EffectsConcat(Effects(v, a), a, b);
    EffectsConcat(v, a, b);
    EffectsElsewhere(v, a);
    SameAfterLog(Effects(v, a), v, a);
  }
}
