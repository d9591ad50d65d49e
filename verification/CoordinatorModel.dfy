/** What each Redis command of the coordinator does, over six separate maps and a clock in milliseconds. */
module CoordinatorModel {
  import opened SagaTypes

  /** A value with an optional expiry time. */
  datatype Timed<T> = Timed(value: T, expiry: Option<nat>)

  datatype ActiveState = ActiveState(bookingId: Option<string>, userId: string, status: Status, totalAmount: real)

  type Counters = map<string, int>

  datatype FieldName = ErrorField | FailedAtField | BookingIdField | StepField
  datatype FieldValue = Why(message: Message) | At(time: nat) | NotGenerated | Aggregation
  type Fields = map<FieldName, FieldValue>

  /** Entries whose expiry has passed are absent, as they are to every Redis command. */
  datatype Coord = Coord(
    now: nat,
    locks: map<string, Timed<nat>>,
    active: map<string, Timed<ActiveState>>,
    steps: map<string, Timed<Counters>>,
    pending: map<string, int>,
    rate: map<string, Timed<int>>,
    metadata: map<string, Timed<Fields>>)

  const WINDOW: nat := 60_000

  function Empty(now: nat): Coord {
    Coord(now, map[], map[], map[], map[], map[], map[])
  }

  function Deadline(c: Coord, seconds: nat): Option<nat> {
    Some(c.now + seconds * 1000)
  }

  // ---- Distributed lock ----

  /** SET key value EX ttl NX; Redis rejects a non-positive ttl and the method then answers false. */
  function Acquire(c: Coord, id: string, ttl: int): (Coord, bool) {
    if ttl <= 0 || id in c.locks then (c, false)
    else (c.(locks := c.locks[id := Timed(c.now, Deadline(c, ttl))]), true)
  }

  function Release(c: Coord, id: string): Coord {
    c.(locks := c.locks - {id})
  }

  // ---- Active state cache ----

  /** SETEX; a non-positive ttl is rejected and the error swallowed. */
  function SetActive(c: Coord, id: string, state: ActiveState, ttl: int): Coord {
    if ttl <= 0 then c else c.(active := c.active[id := Timed(state, Deadline(c, ttl))])
  }

  function ClearActive(c: Coord, id: string): Coord {
    c.(active := c.active - {id})
  }

  // ---- Step counters ----

  function CounterOf(c: Coord, id: string, step: string): int {
    if id in c.steps && step in c.steps[id].value then c.steps[id].value[step] else 0
  }

  /** HINCRBY key step 1: creates the hash if needed and keeps any expiry. */
  function CountStep(c: Coord, id: string, step: string): Coord {
    var was := if id in c.steps then c.steps[id] else Timed(map[], None);
    c.(steps := c.steps[id := was.(value := was.value[step := CounterOf(c, id, step) + 1])])
  }

  function ExpireSteps(c: Coord, id: string): Coord {
    if id in c.steps then c.(steps := c.steps[id := c.steps[id].(expiry := Deadline(c, 7200))]) else c
  }

  function ClearSteps(c: Coord, id: string): Coord {
    c.(steps := c.steps - {id})
  }

  // ---- Pending queue ----

  /** The score is `priority || Date.now()`: a priority of zero counts as missing. */
  function Score(c: Coord, priority: Option<int>): int {
    if priority.Some? && priority.value != 0 then priority.value else c.now
  }

  function Enqueue(c: Coord, id: string, priority: Option<int>): Coord {
    c.(pending := c.pending[id := Score(c, priority)])
  }

  function Dequeue(c: Coord, id: string): Coord {
    c.(pending := c.pending - {id})
  }

  /** ZRANGEBYSCORE -inf (now - olderThanMs), as a set. */
  function Stuck(c: Coord, olderThanMs: int): set<string> {
    set id | id in c.pending && c.pending[id] <= c.now - olderThanMs
  }

  /** Redis orders members of equal score by their characters. */
  predicate LexLeq(a: string, b: string) {
    a == "" || (b != "" && (a[0] < b[0] || (a[0] == b[0] && LexLeq(a[1..], b[1..]))))
  }

  lemma {:induction false} LexTotal(a: string, b: string)
    ensures LexLeq(a, b) || LexLeq(b, a)
  {
    if a != "" && b != "" {
      LexTotal(a[1..], b[1..]);
    }
  }

  lemma {:induction false} LexTransitive(a: string, b: string, c: string)
    requires LexLeq(a, b) && LexLeq(b, c)
    ensures LexLeq(a, c)
  {
    if a != "" && a[0] == b[0] == c[0] {
      LexTransitive(a[1..], b[1..], c[1..]);
    }
  }

  /** The order of a sorted set: by score, then by member. */
  predicate Ahead(scores: map<string, int>, a: string, b: string)
    requires a in scores && b in scores
  {
    scores[a] < scores[b] || (scores[a] == scores[b] && LexLeq(a, b))
  }

  predicate Foremost(scores: map<string, int>, ids: set<string>, first: string)
    requires ids <= scores.Keys
  {
    first in ids && forall id :: id in ids ==> Ahead(scores, first, id)
  }

  lemma {:induction false} SomeForemost(scores: map<string, int>, ids: set<string>) returns (first: string)
    requires ids != {} && ids <= scores.Keys
    ensures Foremost(scores, ids, first)
    decreases |ids|
  {
    var x :| x in ids;
    LexTotal(x, x);
    first := x;
    if ids - {x} != {} {
      var rest := SomeForemost(scores, ids - {x});
      LexTotal(x, rest);
      if !Ahead(scores, x, rest) {
        first := rest;
      } else {
        forall id | id in ids - {x} ensures Ahead(scores, x, id) {
          if scores[x] == scores[rest] == scores[id] {
            LexTransitive(x, rest, id);
          }
        }
      }
    }
  }

  /** Members of a sorted set, each once, foremost first. */
  predicate InOrder(scores: map<string, int>, ids: seq<string>) {
    && (forall id :: id in ids ==> id in scores)
    && (forall i, j :: 0 <= i < j < |ids| ==> ids[i] != ids[j] && Ahead(scores, ids[i], ids[j]))
  }

  lemma AppendForemost(scores: map<string, int>, done: seq<string>, todo: set<string>, next: string)
    requires InOrder(scores, done) && todo <= scores.Keys && Foremost(scores, todo, next)
    requires forall a, b :: a in done && b in todo ==> a != b && Ahead(scores, a, b)
    ensures InOrder(scores, done + [next])
    ensures forall a, b :: a in done + [next] && b in todo - {next} ==> a != b && Ahead(scores, a, b)
  {
  }

  method Sorted(scores: map<string, int>, ids: set<string>) returns (sorted: seq<string>)
    requires ids <= scores.Keys
    ensures InOrder(scores, sorted) && forall id :: id in sorted <==> id in ids
  {
    var todo := ids;
    sorted := [];
    while todo != {}
      invariant todo <= ids && InOrder(scores, sorted)
      invariant forall id :: id in sorted || id in todo <==> id in ids
      invariant forall a, b :: a in sorted && b in todo ==> a != b && Ahead(scores, a, b)
      decreases |todo|
    {
      ghost var _ := SomeForemost(scores, todo);
      var next :| next in todo && Foremost(scores, todo, next);
      AppendForemost(scores, sorted, todo, next);
      sorted := sorted + [next];
      todo := todo - {next};
    }
  }

  // ---- Rate limit ----

  /** INCR: a missing key starts from zero and has no expiry. */
  function Hit(c: Coord, user: string): (Coord, int) {
    var was := if user in c.rate then c.rate[user] else Timed(0, None);
    (c.(rate := c.rate[user := was.(value := was.value + 1)]), was.value + 1)
  }

  /** EXPIRE key 60; no effect on a missing key. */
  function Arm(c: Coord, user: string): Coord {
    if user in c.rate then c.(rate := c.rate[user := c.rate[user].(expiry := Deadline(c, 60))]) else c
  }

  // ---- Metadata ----

  /** HMSET merges fields; without fields Redis rejects the command. */
  function SetMeta(c: Coord, id: string, fields: Fields): Coord {
    if fields == map[] then c else
      var was := if id in c.metadata then c.metadata[id] else Timed(map[], None);
      c.(metadata := c.metadata[id := was.(value := was.value + fields)])
  }

  /** EXPIRE with a non-positive ttl deletes the key. */
  function ExpireMeta(c: Coord, id: string, ttl: int): Coord {
    if id !in c.metadata then c
    else if ttl <= 0 then ClearMeta(c, id)
    else c.(metadata := c.metadata[id := c.metadata[id].(expiry := Deadline(c, ttl))])
  }

  function ClearMeta(c: Coord, id: string): Coord {
    c.(metadata := c.metadata - {id})
  }

  // ---- Time ----

  predicate Live<T>(e: Timed<T>, now: nat) {
    e.expiry.None? || now < e.expiry.value
  }

  function Prune<T>(m: map<string, Timed<T>>, now: nat): map<string, Timed<T>> {
    map k | k in m && Live(m[k], now) :: m[k]
  }

  function Tick(c: Coord, elapsed: nat): Coord {
    var now := c.now + elapsed;
    Coord(now, Prune(c.locks, now), Prune(c.active, now), Prune(c.steps, now), c.pending,
          Prune(c.rate, now), Prune(c.metadata, now))
  }

  // ---- Commands as data, for traces ----

  datatype Cmd =
    | AcquireLock(id: string, ttl: int)
    | ReleaseLock(id: string)
    | PutActive(id: string, state: ActiveState, ttl: int)
    | DropActive(id: string)
    | BumpStep(id: string, step: string)
    | TouchSteps(id: string)
    | DropSteps(id: string)
    | Push(id: string, priority: Option<int>)
    | Remove(id: string)
    | PutMeta(id: string, fields: Fields)
    | TouchMeta(id: string, ttl: int)
    | DropMeta(id: string)
    | RateHit(user: string)
    | RateArm(user: string)
    | Wait(elapsed: nat)

  function Apply(c: Coord, cmd: Cmd): Coord {
    match cmd
    case AcquireLock(id, ttl) => Acquire(c, id, ttl).0
    case ReleaseLock(id) => Release(c, id)
    case PutActive(id, state, ttl) => SetActive(c, id, state, ttl)
    case DropActive(id) => ClearActive(c, id)
    case BumpStep(id, step) => CountStep(c, id, step)
    case TouchSteps(id) => ExpireSteps(c, id)
    case DropSteps(id) => ClearSteps(c, id)
    case Push(id, priority) => Enqueue(c, id, priority)
    case Remove(id) => Dequeue(c, id)
    case PutMeta(id, fields) => SetMeta(c, id, fields)
    case TouchMeta(id, ttl) => ExpireMeta(c, id, ttl)
    case DropMeta(id) => ClearMeta(c, id)
    case RateHit(user) => Hit(c, user).0
    case RateArm(user) => Arm(c, user)
    case Wait(elapsed) => Tick(c, elapsed)
  }

  function Run(c: Coord, cmds: seq<Cmd>): Coord
    decreases |cmds|
  {
    if cmds == [] then c else Run(Apply(c, cmds[0]), cmds[1..])
  }

  // ---- cleanup ----

  /** The five deletions that `cleanup` issues at once. */
  datatype Deletion = OfLock | OfActive | OfSteps | OfPending | OfMeta

  const ALL_DELETIONS: set<Deletion> := {OfLock, OfActive, OfSteps, OfPending, OfMeta}

  function Delete(c: Coord, d: Deletion, id: string): Coord {
    match d
    case OfLock => Release(c, id)
    case OfActive => ClearActive(c, id)
    case OfSteps => ClearSteps(c, id)
    case OfPending => Dequeue(c, id)
    case OfMeta => ClearMeta(c, id)
  }

  function DeleteEach(c: Coord, order: seq<Deletion>, id: string): Coord
    decreases |order|
  {
    if order == [] then c else DeleteEach(Delete(c, order[0], id), order[1..], id)
  }

  /** The coordinator with nothing left of one request, and everything else as it was. */
  function Without(c: Coord, id: string): Coord {
    c.(locks := c.locks - {id}, active := c.active - {id}, steps := c.steps - {id},
       pending := c.pending - {id}, metadata := c.metadata - {id})
  }

  function Gone<T>(m: map<string, T>, id: string, d: Deletion, order: seq<Deletion>): map<string, T> {
    if d in order then m - {id} else m
  }

  lemma GoneStep<T>(m: map<string, T>, id: string, d: Deletion, order: seq<Deletion>)
    requires order != []
    ensures Gone(m, id, d, order) == Gone(if order[0] == d then m - {id} else m, id, d, order[1..])
  {
    assert order == [order[0]] + order[1..];
    assert m - {id} - {id} == m - {id};
  }

  /** The effect of a run of deletions depends only on which ones it holds, not on order or repetition. */
  lemma {:induction false} DeletionsCommute(c: Coord, order: seq<Deletion>, id: string, end: Coord)
    requires end == DeleteEach(c, order, id)
    ensures end == Coord(c.now, Gone(c.locks, id, OfLock, order), Gone(c.active, id, OfActive, order),
                         Gone(c.steps, id, OfSteps, order), Gone(c.pending, id, OfPending, order),
                         c.rate, Gone(c.metadata, id, OfMeta, order))
    decreases |order|
  {
    if order != [] {
      GoneStep(c.locks, id, OfLock, order);
      GoneStep(c.active, id, OfActive, order);
      GoneStep(c.steps, id, OfSteps, order);
      GoneStep(c.pending, id, OfPending, order);
      GoneStep(c.metadata, id, OfMeta, order);
      DeletionsCommute(Delete(c, order[0], id), order[1..], id, end);
    }
  }

  /** cleanup removes exactly the request's five entries, in whatever order its five deletions land. */
  lemma CleanupInAnyOrder(c: Coord, order: seq<Deletion>, id: string)
    requires multiset(order) == multiset(ALL_DELETIONS)
    ensures DeleteEach(c, order, id) == Without(c, id)
    ensures DeleteEach(c, order, id).rate == c.rate
  {
    DeletionsCommute(c, order, id, DeleteEach(c, order, id));
    assert forall d: Deletion :: d in ALL_DELETIONS ==> d in multiset(order);
    assert forall d: Deletion :: d in order <==> d in multiset(order);
  }

  /** What is counted and dequeued of a request leaves no trace once the request is taken out. */
  lemma WithoutForgets(c: Coord, id: string, step: string)
    ensures Without(ExpireSteps(CountStep(c, id, step), id), id) == Without(c, id)
    ensures Without(Dequeue(ExpireSteps(CountStep(c, id, step), id), id), id) == Without(c, id)
  {
  }

  lemma NoRepeats(order: seq<Deletion>)
    requires multiset(order) == multiset(ALL_DELETIONS)
    ensures forall i, j :: 0 <= i < j < |order| ==> order[i] != order[j]
    ensures (set d | d in order) == ALL_DELETIONS
  {
    forall i, j | 0 <= i < j < |order| ensures order[i] != order[j] {
      OccursOnce(order, i, j);
    }
    assert forall d :: d in order <==> d in multiset(order);
  }

  lemma OccursOnce(order: seq<Deletion>, i: nat, j: nat)
    requires i < j < |order| && multiset(order)[order[i]] <= 1
    ensures order[i] != order[j]
  {
    var tail := order[i + 1..];
    assert order == order[..i] + [order[i]] + tail;
    assert multiset(order) == multiset(order[..i]) + multiset{order[i]} + multiset(tail);
    assert tail[j - i - 1] == order[j];
    assert order[j] in multiset(tail);
  }
}
