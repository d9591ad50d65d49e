/** The distributed lock over every timed trace of coordinator commands. */
module LockSafety {
  import opened SagaTypes
  import opened CoordinatorModel

  predicate Acquires(cmd: Cmd, id: string) {
    cmd.AcquireLock? && cmd.id == id
  }

  lemma OtherCommand(c: Coord, cmd: Cmd)
    requires !cmd.AcquireLock? && !cmd.ReleaseLock? && !cmd.Wait?
    ensures Apply(c, cmd).locks == c.locks && Apply(c, cmd).now == c.now
  {
  }

  /** One command never turns the clock back, keeps a lock it neither deletes nor outlives, and frees one it does. */
  lemma OneCommand(c: Coord, cmd: Cmd, id: string)
    ensures c.now <= Apply(c, cmd).now
    ensures id in c.locks && cmd != ReleaseLock(id) && Live(c.locks[id], Apply(c, cmd).now) ==>
              id in Apply(c, cmd).locks && Apply(c, cmd).locks[id] == c.locks[id]
    ensures id in c.locks && (cmd == ReleaseLock(id)
                              || (Live(c.locks[id], c.now) && !Live(c.locks[id], Apply(c, cmd).now))) ==>
              id !in Apply(c, cmd).locks
    ensures id !in c.locks && !Acquires(cmd, id) ==> id !in Apply(c, cmd).locks
  {
    match cmd
    case AcquireLock(_, _) =>
    case ReleaseLock(_) =>
    case Wait(_) =>
    case _ => OtherCommand(c, cmd);
  }

  lemma {:induction false} ClockNeverGoesBack(c: Coord, cmds: seq<Cmd>, end: Coord)
    requires end == Run(c, cmds)
    ensures c.now <= end.now
    decreases |cmds|
  {
    if cmds != [] {
      OneCommand(c, cmds[0], "");
      ClockNeverGoesBack(Apply(c, cmds[0]), cmds[1..], end);
    }
  }

  /** A held lock survives any commands that do not delete its key, until its deadline. */
  lemma {:induction false} HeldUntilReleasedOrExpired(c: Coord, cmds: seq<Cmd>, id: string, deadline: nat, end: Coord)
    requires end == Run(c, cmds)
    requires id in c.locks && c.locks[id].expiry == Some(deadline)
    requires ReleaseLock(id) !in cmds && end.now < deadline
    ensures id in end.locks && end.locks[id] == c.locks[id]
    decreases |cmds|
  {
    if cmds != [] {
      OneCommand(c, cmds[0], id);
      ClockNeverGoesBack(Apply(c, cmds[0]), cmds[1..], end);
      HeldUntilReleasedOrExpired(Apply(c, cmds[0]), cmds[1..], id, deadline, end);
    }
  }

  lemma {:induction false} StaysFree(c: Coord, cmds: seq<Cmd>, id: string, end: Coord)
    requires end == Run(c, cmds)
    requires id !in c.locks
    requires forall k :: 0 <= k < |cmds| ==> !Acquires(cmds[k], id)
    ensures id !in end.locks
    decreases |cmds|
  {
    if cmds != [] {
      OneCommand(c, cmds[0], id);
      StaysFree(Apply(c, cmds[0]), cmds[1..], id, end);
    }
  }

  lemma {:induction false} FreedWhenReleasedOrExpired(c: Coord, cmds: seq<Cmd>, id: string, deadline: nat, end: Coord)
    requires end == Run(c, cmds)
    requires id in c.locks && c.locks[id].expiry == Some(deadline) && c.now < deadline
    requires forall k :: 0 <= k < |cmds| ==> !Acquires(cmds[k], id)
    requires ReleaseLock(id) in cmds || end.now >= deadline
    ensures id !in end.locks
    decreases |cmds|
  {
    if cmds != [] {
      var c' := Apply(c, cmds[0]);
      OneCommand(c, cmds[0], id);
      if id !in c'.locks {
        StaysFree(c', cmds[1..], id, end);
      } else {
        FreedWhenReleasedOrExpired(c', cmds[1..], id, deadline, end);
      }
    }
  }

  /** Between two successful acquisitions of one lock, its key was deleted (by a release or by cleanup, which
      issue the same command) or the first holder's ttl ran out, whatever else happened in between. */
  lemma LockTraceSafety(c: Coord, id: string, ttl: int, between: seq<Cmd>, ttl': int)
    requires Acquire(c, id, ttl).1
    requires Acquire(Run(Acquire(c, id, ttl).0, between), id, ttl').1
    ensures ReleaseLock(id) in between || Run(Acquire(c, id, ttl).0, between).now >= c.now + ttl * 1000
  {
    var held := Acquire(c, id, ttl).0;
    var end := Run(held, between);
    if ReleaseLock(id) !in between && end.now < c.now + ttl * 1000 {
      HeldUntilReleasedOrExpired(held, between, id, c.now + ttl * 1000, end);
    }
  }

  /** Exactly when a second caller gets the lock after a first one took it and nobody else tried in between. */
  lemma SecondAcquireIff(c: Coord, id: string, ttl: int, between: seq<Cmd>, ttl': int)
    requires Acquire(c, id, ttl).1
    requires forall k :: 0 <= k < |between| ==> !Acquires(between[k], id)
    ensures var after := Run(Acquire(c, id, ttl).0, between);
            Acquire(after, id, ttl').1 <==>
            ttl' > 0 && (ReleaseLock(id) in between || after.now >= c.now + ttl * 1000)
  {
    var held := Acquire(c, id, ttl).0;
    var end := Run(held, between);
    if ReleaseLock(id) in between || end.now >= c.now + ttl * 1000 {
      FreedWhenReleasedOrExpired(held, between, id, c.now + ttl * 1000, end);
    } else {
      HeldUntilReleasedOrExpired(held, between, id, c.now + ttl * 1000, end);
    }
  }
}
