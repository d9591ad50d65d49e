/** Builders for the single string keyspace the coordinator shares with every saga (cache-keys.const.ts). */
module CacheKeys {

  const DISTRIBUTED_LOCK := "saga:lock:"
  const ACTIVE_STATE := "saga:in-active:"
  const PROGRESS_STEPS := "saga:steps:"
  const PENDING_QUEUE := "saga:pending"
  const RATE_LIMIT := "saga:ratelimit:"
  const METADATA := "saga:metadata:"

  /** The families of keys that carry an id. */
  datatype Family = Lock | Active | Steps | Rate | Meta

  function Prefix(family: Family): string {
    match family
    case Lock => DISTRIBUTED_LOCK
    case Active => ACTIVE_STATE
    case Steps => PROGRESS_STEPS
    case Rate => RATE_LIMIT
    case Meta => METADATA
  }

  function Key(family: Family, id: string): string {
    Prefix(family) + id
  }

  /** Whether a key belongs to a family: what the pattern `prefix*` of KEYS selects. */
  predicate Matches(family: Family, key: string) {
    Prefix(family) <= key
  }

  /** The keys as Redis sees them. */
  lemma KeysSpelledOut(id: string)
    ensures Key(Lock, id) == "saga:lock:" + id && Key(Active, id) == "saga:in-active:" + id
    ensures Key(Steps, id) == "saga:steps:" + id && Key(Rate, id) == "saga:ratelimit:" + id
    ensures Key(Meta, id) == "saga:metadata:" + id && PENDING_QUEUE == "saga:pending"
  {
  }

  /** No key is in two families, whatever ids clients choose: the sixth character tells the families apart. */
  lemma FamiliesDisjoint(f: Family, g: Family, key: string)
    requires Matches(f, key) && Matches(g, key)
    ensures f == g
    ensures key != PENDING_QUEUE
  {
    assert key[5] == Prefix(f)[5] && key[5] == Prefix(g)[5];
    assert PENDING_QUEUE[5] == 'p';
  }

  /** Two id-carrying keys are equal exactly when family and id are; none is the queue's key. */
  lemma KeyInjective(f: Family, id: string, g: Family, id': string)
    ensures Key(f, id) == Key(g, id') <==> f == g && id == id'
    ensures Matches(f, Key(f, id)) && Key(f, id)[|Prefix(f)|..] == id
    ensures Key(f, id) != PENDING_QUEUE
  {
    FamiliesDisjoint(f, f, Key(f, id));
    assert Key(f, id)[|Prefix(f)|..] == id;
    assert Key(g, id')[|Prefix(g)|..] == id';
    if Key(f, id) == Key(g, id') {
      FamiliesDisjoint(f, g, Key(f, id));
    }
  }
}
