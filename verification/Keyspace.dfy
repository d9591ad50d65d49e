/** One flat store of string keys, and when it represents the coordinator's six maps. */
module Keyspace {
  import opened SagaTypes
  import opened CacheKeys
  import C = CoordinatorModel

  /** The kinds of value the coordinator's commands leave in Redis. */
  datatype Value =
    | Stamp(at: nat)
    | State(state: C.ActiveState)
    | Hash(counters: C.Counters)
    | Sorted(scores: map<string, int>)
    | Counter(count: int)
    | Info(fields: C.Fields)

  type Entry = C.Timed<Value>
  type Redis = map<string, Entry>

  function Get(redis: Redis, key: string): Option<Entry> {
    if key in redis then Some(redis[key]) else None
  }

  /** What the six maps say should be under a family's key for an id. */
  function Lookup(c: C.Coord, family: Family, id: string): Option<Entry> {
    match family
    case Lock => if id in c.locks then Some(C.Timed(Stamp(c.locks[id].value), c.locks[id].expiry)) else None
    case Active => if id in c.active then Some(C.Timed(State(c.active[id].value), c.active[id].expiry)) else None
    case Steps => if id in c.steps then Some(C.Timed(Hash(c.steps[id].value), c.steps[id].expiry)) else None
    case Rate => if id in c.rate then Some(C.Timed(Counter(c.rate[id].value), c.rate[id].expiry)) else None
    case Meta => if id in c.metadata then Some(C.Timed(Info(c.metadata[id].value), c.metadata[id].expiry)) else None
  }

  /** The sorted set; Redis drops the key of an empty one. */
  function Queue(c: C.Coord): Option<Entry> {
    if c.pending == map[] then None else Some(C.Timed(Sorted(c.pending), None))
  }

  /** The flat store holds exactly the six maps under the coordinator's keys. Other keys are other programs'. */
  ghost predicate Represents(redis: Redis, c: C.Coord) {
    && (forall family, id :: Get(redis, Key(family, id)) == Lookup(c, family, id))
    && Get(redis, PENDING_QUEUE) == Queue(c)
  }

  /** No two different coordinator states look the same in the flat store. */
  lemma RepresentationUnique(redis: Redis, c: C.Coord, c': C.Coord)
    requires Represents(redis, c) && Represents(redis, c') && c.now == c'.now
    ensures c == c'
  {
    forall id
      ensures id in c.locks <==> id in c'.locks
      ensures id in c.locks ==> c.locks[id] == c'.locks[id]
    {
      assert Lookup(c, Lock, id) == Lookup(c', Lock, id);
    }
    forall id
      ensures id in c.active <==> id in c'.active
      ensures id in c.active ==> c.active[id] == c'.active[id]
    {
      assert Lookup(c, Active, id) == Lookup(c', Active, id);
    }
    forall id
      ensures id in c.steps <==> id in c'.steps
      ensures id in c.steps ==> c.steps[id] == c'.steps[id]
    {
      assert Lookup(c, Steps, id) == Lookup(c', Steps, id);
    }
    forall id
      ensures id in c.rate <==> id in c'.rate
      ensures id in c.rate ==> c.rate[id] == c'.rate[id]
    {
      assert Lookup(c, Rate, id) == Lookup(c', Rate, id);
    }
    forall id
      ensures id in c.metadata <==> id in c'.metadata
      ensures id in c.metadata ==> c.metadata[id] == c'.metadata[id]
    {
      assert Lookup(c, Meta, id) == Lookup(c', Meta, id);
    }
  }

  /** The maps after one key of one family changed. */
  ghost predicate ChangedAt(c: C.Coord, c': C.Coord, family: Family, id: string, e: Option<Entry>) {
    && c'.pending == c.pending
    && (forall g, other :: Lookup(c', g, other) == if g == family && other == id then e else Lookup(c, g, other))
  }

  /** Writing a family's key changes that family's map at that id and nothing else. */
  lemma PutRepresents(redis: Redis, c: C.Coord, family: Family, id: string, e: Entry, c': C.Coord)
    requires Represents(redis, c) && ChangedAt(c, c', family, id, Some(e))
    ensures Represents(redis[Key(family, id) := e], c')
  {
    var after := redis[Key(family, id) := e];
    forall g, other ensures Get(after, Key(g, other)) == Lookup(c', g, other) {
      KeyInjective(g, other, family, id);
    }
    KeyInjective(family, id, family, id);
  }

  lemma DelRepresents(redis: Redis, c: C.Coord, family: Family, id: string, c': C.Coord)
    requires Represents(redis, c) && ChangedAt(c, c', family, id, None)
    ensures Represents(redis - {Key(family, id)}, c')
  {
    var after := redis - {Key(family, id)};
    forall g, other ensures Get(after, Key(g, other)) == Lookup(c', g, other) {
      KeyInjective(g, other, family, id);
    }
    KeyInjective(family, id, family, id);
  }

  function PutScores(redis: Redis, scores: map<string, int>): Redis {
    if scores == map[] then redis - {PENDING_QUEUE} else redis[PENDING_QUEUE := C.Timed(Sorted(scores), None)]
  }

  function Scores(redis: Redis): map<string, int> {
    if PENDING_QUEUE in redis && redis[PENDING_QUEUE].value.Sorted? then redis[PENDING_QUEUE].value.scores else map[]
  }

  lemma ScoresRepresent(redis: Redis, c: C.Coord, scores: map<string, int>)
    requires Represents(redis, c)
    ensures Represents(PutScores(redis, scores), c.(pending := scores)) && Scores(redis) == c.pending
  {
    var after, c' := PutScores(redis, scores), c.(pending := scores);
    forall g, id ensures Get(after, Key(g, id)) == Lookup(c', g, id) {
      KeyInjective(g, id, g, id);
      assert Get(redis, Key(g, id)) == Lookup(c, g, id) == Lookup(c', g, id);
    }
  }

  lemma ExpireRepresents(redis: Redis, c: C.Coord, elapsed: nat)
    requires Represents(redis, c)
    ensures Represents(C.Prune(redis, c.now + elapsed), C.Tick(c, elapsed))
  {
    var after, c' := C.Prune(redis, c.now + elapsed), C.Tick(c, elapsed);
    forall g, id ensures Get(after, Key(g, id)) == Lookup(c', g, id) {
      assert Get(redis, Key(g, id)) == Lookup(c, g, id);
      match g case Lock => case Active => case Steps => case Rate => case Meta =>
    }
  }

  // ---- KEYS prefix* ----

  function Matching(redis: Redis, family: Family): set<string> {
    set k | k in redis && Matches(family, k)
  }

  /** The keys are exactly those of the ids. */
  ghost predicate KeysOf(keys: set<string>, ids: set<string>, family: Family) {
    && (forall k :: k in keys ==> Matches(family, k))
    && (forall id :: id in ids <==> Key(family, id) in keys)
  }

  lemma OneKeyLess(keys: set<string>, ids: set<string>, family: Family, k: string) returns (id: string)
    requires KeysOf(keys, ids, family) && k in keys
    ensures id in ids && KeysOf(keys - {k}, ids - {id}, family)
  {
    id := k[|Prefix(family)|..];
    assert Key(family, id) == k;
    forall other ensures other in ids - {id} <==> Key(family, other) in keys - {k} {
      KeyInjective(family, other, family, id);
    }
  }

  lemma NoKeys(ids: set<string>, family: Family)
    requires KeysOf({}, ids, family)
    ensures ids == {}
  {
    assert forall id :: id in ids ==> Key(family, id) in {};
  }

  /** As many keys match a family's pattern as the family's map has entries. */
  lemma {:induction false} PatternCounts(keys: set<string>, ids: set<string>, family: Family)
    requires KeysOf(keys, ids, family)
    ensures |keys| == |ids|
  {
    if keys == {} {
      NoKeys(ids, family);
    } else {
      var k :| k in keys;
      var id := OneKeyLess(keys, ids, family, k);
      PatternCounts(keys - {k}, ids - {id}, family);
    }
  }

  lemma LocksCounted(redis: Redis, c: C.Coord)
    requires Represents(redis, c)
    ensures |Matching(redis, Lock)| == |c.locks.Keys|
  {
    forall id ensures id in c.locks.Keys <==> Key(Lock, id) in Matching(redis, Lock) {
      KeyInjective(Lock, id, Lock, id);
      assert Get(redis, Key(Lock, id)) == Lookup(c, Lock, id);
    }
    PatternCounts(Matching(redis, Lock), c.locks.Keys, Lock);
  }

  lemma ActiveCounted(redis: Redis, c: C.Coord)
    requires Represents(redis, c)
    ensures |Matching(redis, Active)| == |c.active.Keys|
  {
    forall id ensures id in c.active.Keys <==> Key(Active, id) in Matching(redis, Active) {
      KeyInjective(Active, id, Active, id);
      assert Get(redis, Key(Active, id)) == Lookup(c, Active, id);
    }
    PatternCounts(Matching(redis, Active), c.active.Keys, Active);
  }
}
