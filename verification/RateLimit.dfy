/** The fixed-window rate limiter over every timed trace: callers' INCR and EXPIRE commands interleave with one
    another, with the clock and with every other coordinator command; a caller may stop before its EXPIRE. */
module RateLimit {
  import opened SagaTypes
  import opened CoordinatorModel

  /** One INCR: the caller's user, its time, the count it returned, and the number of that user's window. */
  datatype Attempt = Attempt(user: string, time: nat, count: int, window: nat)

  /** `owed` maps each caller between its INCR (which returned 1) and its EXPIRE to its user.
      `attempts` and `starts` are history: all INCRs so far, and per user the times that opened a window. */
  datatype Limiter = Limiter(coord: Coord, owed: map<nat, string>, attempts: seq<Attempt>, starts: map<string,
      seq<nat>>)

  datatype Move =
    | Call(caller: nat, user: string)
    | Follow(caller: nat)
    | Other(cmd: Cmd)

  function Starts(l: Limiter, user: string): seq<nat> {
    if user in l.starts then l.starts[user] else []
  }

  /** `checkRateLimit` is Call, then Follow when the count was 1. A busy caller cannot call again. */
  function Step(l: Limiter, m: Move): Limiter {
    match m
    case Call(caller, user) =>
      if caller in l.owed then l else
        var (coord, count) := Hit(l.coord, user);
        var starts := if count == 1 then Starts(l, user) + [l.coord.now] else Starts(l, user);
        Limiter(coord,
                if count == 1 then l.owed[caller := user] else l.owed,
                l.attempts + [Attempt(user, l.coord.now, count, |starts|)],
                l.starts[user := starts])
    case Follow(caller) =>
      if caller !in l.owed then l else
        l.(coord := Arm(l.coord, l.owed[caller]), owed := l.owed - {caller})
    case Other(cmd) =>
      if cmd.RateHit? || cmd.RateArm? then l else l.(coord := Apply(l.coord, cmd))
  }

  function Exec(start: nat, moves: seq<Move>): Limiter {
    if moves == [] then Limiter(Empty(start), map[], [], map[])
    else Step(Exec(start, moves[..|moves| - 1]), moves[|moves| - 1])
  }

  // ---- Invariant ----

  predicate Spaced(starts: seq<nat>, now: nat) {
    && (forall i, j :: 0 <= i < j < |starts| ==> starts[i] + WINDOW <= starts[j])
    && (forall i :: 0 <= i < |starts| ==> starts[i] <= now)
  }

  /** Where one attempt lies relative to its user's windows. */
  predicate Placed(a: Attempt, starts: seq<nat>, now: nat) {
    && 1 <= a.window <= |starts| && 1 <= a.count && a.time <= now
    && starts[a.window - 1] <= a.time
    && (a.count == 1 ==> a.time == starts[a.window - 1])
    && (a.window < |starts| ==> a.time <= starts[a.window])
  }

  /** The window a user is in now: open until the caller that opened it arms it, then for at least 60 s. */
  predicate WindowOk(l: Limiter, user: string) {
    var starts := Starts(l, user);
    if user in l.coord.rate then
      var e := l.coord.rate[user];
      && starts != [] && e.value >= 1
      && match e.expiry
         case Some(deadline) => starts[|starts| - 1] + WINDOW <= deadline && l.coord.now < deadline
         case None => true
    else
      starts != [] ==> starts[|starts| - 1] + WINDOW <= l.coord.now
  }

  predicate OwedOk(l: Limiter) {
    && (forall caller :: caller in l.owed ==>
          l.owed[caller] in l.coord.rate && l.coord.rate[l.owed[caller]].expiry.None?)
    && (forall a, b :: a in l.owed && b in l.owed && l.owed[a] == l.owed[b] ==> a == b)
  }

  predicate CountsOk(l: Limiter) {
    && (forall i, j | 0 <= i < j < |l.attempts| && l.attempts[i].user == l.attempts[j].user &&
                      l.attempts[i].window == l.attempts[j].window ::
          l.attempts[i].count != l.attempts[j].count)
    && (forall i | 0 <= i < |l.attempts| && l.attempts[i].user in l.coord.rate &&
                   l.attempts[i].window == |Starts(l, l.attempts[i].user)| ::
          l.attempts[i].count <= l.coord.rate[l.attempts[i].user].value)
  }

  ghost predicate Inv(l: Limiter) {
    && (forall user :: Spaced(Starts(l, user), l.coord.now))
    && (forall i :: 0 <= i < |l.attempts| ==>
          Placed(l.attempts[i], Starts(l, l.attempts[i].user), l.coord.now))
    && (forall user :: WindowOk(l, user))
    && OwedOk(l)
    && CountsOk(l)
  }

  lemma CallOnOthers(l: Limiter, caller: nat, user: string, u: string)
    requires u != user
    ensures var l' := Step(l, Call(caller, user));
            && Starts(l', u) == Starts(l, u) && l'.coord.now == l.coord.now
            && (u in l'.coord.rate <==> u in l.coord.rate)
               && (u in l.coord.rate ==> l'.coord.rate[u] == l.coord.rate[u])
  {
  }

  lemma CallKeepsOwnWindow(l: Limiter, caller: nat, user: string)
    requires WindowOk(l, user) && Spaced(Starts(l, user), l.coord.now)
    ensures var l' := Step(l, Call(caller, user)); Spaced(Starts(l', user), l'.coord.now) && WindowOk(l', user)
  {
  }

  lemma CallKeepsWindows(l: Limiter, caller: nat, user: string, u: string)
    requires WindowOk(l, u) && Spaced(Starts(l, u), l.coord.now)
    ensures var l' := Step(l, Call(caller, user)); Spaced(Starts(l', u), l'.coord.now) && WindowOk(l', u)
  {
    if u == user {
      CallKeepsOwnWindow(l, caller, user);
    } else {
      CallOnOthers(l, caller, user, u);
    }
  }

  lemma CallKeepsPlaces(l: Limiter, caller: nat, user: string, i: nat)
    requires Inv(l)
    requires i < |Step(l, Call(caller, user)).attempts|
    ensures var l' := Step(l, Call(caller, user));
            Placed(l'.attempts[i], Starts(l', l'.attempts[i].user), l'.coord.now)
  {
    assert WindowOk(l, user) && Spaced(Starts(l, user), l.coord.now);
    if i < |l.attempts| {
      assert Placed(l.attempts[i], Starts(l, l.attempts[i].user), l.coord.now);
    }
  }

  /** The new attempt counts above the earlier ones of its window. */
  lemma NewestCountsMost(l: Limiter, caller: nat, user: string, i: nat)
    requires Inv(l) && caller !in l.owed && i < |l.attempts| && l.attempts[i].user == user
    ensures var l' := Step(l, Call(caller, user));
            var last := l'.attempts[|l.attempts|];
            l.attempts[i].window == last.window ==> l.attempts[i].count < last.count
  {
    assert WindowOk(l, user) && Placed(l.attempts[i], Starts(l, user), l.coord.now);
  }

  lemma CallKeepsCounts(l: Limiter, caller: nat, user: string)
    requires Inv(l)
    ensures CountsOk(Step(l, Call(caller, user)))
  {
    if caller !in l.owed {
      forall i | 0 <= i < |l.attempts| && l.attempts[i].user == user
        ensures l.attempts[i].window == Step(l, Call(caller, user)).attempts[|l.attempts|].window ==>
                l.attempts[i].count < Step(l, Call(caller, user)).attempts[|l.attempts|].count
      {
        NewestCountsMost(l, caller, user, i);
      }
    }
  }

  lemma CallKeepsInv(l: Limiter, caller: nat, user: string)
    requires Inv(l)
    ensures Inv(Step(l, Call(caller, user)))
  {
    var l' := Step(l, Call(caller, user));
    forall u ensures Spaced(Starts(l', u), l'.coord.now) && WindowOk(l', u) {
      assert WindowOk(l, u) && Spaced(Starts(l, u), l.coord.now);
      CallKeepsWindows(l, caller, user, u);
    }
    forall i | 0 <= i < |l'.attempts|
      ensures Placed(l'.attempts[i], Starts(l', l'.attempts[i].user), l'.coord.now)
    {
      CallKeepsPlaces(l, caller, user, i);
    }
    CallKeepsCounts(l, caller, user);
    assert WindowOk(l, user);
  }

  lemma FollowKeepsInv(l: Limiter, caller: nat)
    requires Inv(l)
    ensures Inv(Step(l, Follow(caller)))
  {
    if caller in l.owed {
      var l' := Step(l, Follow(caller));
      forall u ensures WindowOk(l', u) {
        assert WindowOk(l, u) && Spaced(Starts(l, u), l.coord.now);
      }
      forall u ensures Spaced(Starts(l', u), l'.coord.now) {
        assert Spaced(Starts(l, u), l.coord.now);
      }
    }
  }

  /** Other commands leave the counters alone, except that time may end armed windows. */
  lemma OtherOnRate(c: Coord, cmd: Cmd)
    requires !cmd.RateHit? && !cmd.RateArm?
    ensures Apply(c, cmd).now >= c.now
    ensures cmd.Wait? ==> Apply(c, cmd).rate == Prune(c.rate, Apply(c, cmd).now)
    ensures !cmd.Wait? ==> Apply(c, cmd).rate == c.rate && Apply(c, cmd).now == c.now
  {
    if !cmd.Wait? {
      RestOnRate(c, cmd);
    }
  }

  lemma RestOnRate(c: Coord, cmd: Cmd)
    requires !cmd.RateHit? && !cmd.RateArm? && !cmd.Wait?
    ensures Apply(c, cmd).rate == c.rate && Apply(c, cmd).now == c.now
  {
  }

  lemma OtherKeepsInv(l: Limiter, cmd: Cmd)
    requires Inv(l)
    ensures Inv(Step(l, Other(cmd)))
  {
    if !cmd.RateHit? && !cmd.RateArm? {
      OtherOnRate(l.coord, cmd);
      LaterKeepsInv(l, Apply(l.coord, cmd));
    }
  }

  lemma LaterKeepsInv(l: Limiter, c: Coord)
    requires Inv(l)
    requires c.now >= l.coord.now
    requires c.rate == Prune(l.coord.rate, c.now) || (c.rate == l.coord.rate && c.now == l.coord.now)
    ensures Inv(l.(coord := c))
  {
    var l' := l.(coord := c);
    forall u ensures WindowOk(l', u) && Spaced(Starts(l', u), c.now) {
      assert WindowOk(l, u) && Spaced(Starts(l, u), l.coord.now);
    }
  }

  lemma {:induction false} AlwaysInv(start: nat, moves: seq<Move>)
    ensures Inv(Exec(start, moves))
  {
    if moves != [] {
      var m := moves[|moves| - 1];
      AlwaysInv(start, moves[..|moves| - 1]);
      var l := Exec(start, moves[..|moves| - 1]);
      match m
      case Call(caller, user) => CallKeepsInv(l, caller, user);
      case Follow(caller) => FollowKeepsInv(l, caller);
      case Other(cmd) => OtherKeepsInv(l, cmd);
    }
  }

  // ---- Theorems ----

  /** Windows of one user open at least 60 seconds apart. */
  lemma WindowsStartApart(start: nat, moves: seq<Move>, user: string, i: nat, j: nat)
    requires i < j < |Starts(Exec(start, moves), user)|
    ensures Starts(Exec(start, moves), user)[i] + WINDOW <= Starts(Exec(start, moves), user)[j]
  {
    AlwaysInv(start, moves);
    assert Spaced(Starts(Exec(start, moves), user), Exec(start, moves).coord.now);
  }

  /** The admitted attempts of a user in the 60 seconds from `from`. */
  function Admitted(l: Limiter, user: string, max: int, from: nat): set<nat> {
    set i: nat | i < |l.attempts| && l.attempts[i].user == user && l.attempts[i].count <= max &&
                 from <= l.attempts[i].time < from + WINDOW
  }

  /** A set with an injection into 1..n has at most n elements. */
  lemma {:induction false} Pigeonhole(s: set<nat>, f: map<nat, int>, n: nat)
    requires s <= f.Keys
    requires forall i :: i in s ==> 1 <= f[i] <= n
    requires forall i, j :: i in s && j in s && f[i] == f[j] ==> i == j
    ensures |s| <= n
    decreases n
  {
    if n == 0 {
      assert s == {};
    } else if i :| i in s && f[i] == n {
      Pigeonhole(s - {i}, f, n - 1);
    } else {
      Pigeonhole(s, f, n - 1);
    }
  }

  /** Two attempts of one user less than 60 s apart are in the same or in adjacent windows, and in the second
      case the earlier one did not open its window. */
  lemma CloseAttempts(l: Limiter, user: string, i: nat, j: nat, from: nat)
    requires Inv(l)
    requires i < |l.attempts| && j < |l.attempts|
    requires l.attempts[i].user == user && l.attempts[j].user == user
    requires from <= l.attempts[i].time < from + WINDOW && from <= l.attempts[j].time < from + WINDOW
    requires l.attempts[i].window < l.attempts[j].window
    ensures l.attempts[j].window == l.attempts[i].window + 1 && l.attempts[i].count >= 2
  {
    var starts := Starts(l, user);
    assert Spaced(starts, l.coord.now);
    var a, b := l.attempts[i], l.attempts[j];
    assert Placed(a, starts, l.coord.now) && Placed(b, starts, l.coord.now);
    assert starts[a.window - 1] + WINDOW <= starts[a.window];
    assert forall k :: a.window < k < |starts| ==> starts[a.window] + WINDOW <= starts[k];
  }

  /** Admitted attempts spread over two adjacent windows: the earlier one contributes no opening attempt. */
  lemma TwoWindows(l: Limiter, s: set<nat>, user: string, max: nat, last: nat)
    requires CountsOk(l) && max >= 1
    requires forall k :: k in s ==> k < |l.attempts| && l.attempts[k].user == user && 1 <= l.attempts[k].count <= max
    requires forall k :: k in s ==>
               l.attempts[k].window == last || (l.attempts[k].window == last - 1 && l.attempts[k].count >= 2)
    ensures |s| <= 2 * max - 1
  {
    var slot := map k | k in s :: if l.attempts[k].window == last then l.attempts[k].count
                                  else max + l.attempts[k].count - 1;
    Pigeonhole(s, slot, 2 * max - 1);
  }

  lemma OneWindow(l: Limiter, s: set<nat>, user: string, max: nat, window: nat)
    requires CountsOk(l)
    requires forall k :: k in s ==> k < |l.attempts| && l.attempts[k].user == user && 1 <= l.attempts[k].count <= max
    requires forall k :: k in s ==> l.attempts[k].window == window
    ensures |s| <= max
  {
    var slot := map k | k in s :: l.attempts[k].count;
    Pigeonhole(s, slot, max);
  }

  /** Any 60-second interval admits at most 2 * max - 1 calls of one user. */
  lemma AtMostTwiceMaxMinusOne(start: nat, moves: seq<Move>, user: string, max: nat, from: nat)
    requires max >= 1
    ensures |Admitted(Exec(start, moves), user, max, from)| <= 2 * max - 1
  {
    var l := Exec(start, moves);
    AlwaysInv(start, moves);
    var s := Admitted(l, user, max, from);
    forall i, j | i in s && j in s && l.attempts[i].window < l.attempts[j].window
      ensures l.attempts[j].window == l.attempts[i].window + 1 && l.attempts[i].count >= 2
    {
      CloseAttempts(l, user, i, j, from);
    }
    forall i | i in s ensures l.attempts[i].count >= 1 {
      assert Placed(l.attempts[i], Starts(l, user), l.coord.now);
    }
    if i, j :| i in s && j in s && l.attempts[i].window < l.attempts[j].window {
      TwoWindows(l, s, user, max, l.attempts[j].window);
    } else if i :| i in s {
      OneWindow(l, s, user, max, l.attempts[i].window);
    }
  }

  /** One window admits at most max calls. */
  lemma WindowAdmitsAtMostMax(start: nat, moves: seq<Move>, user: string, max: nat, window: nat)
    ensures var l := Exec(start, moves);
            |set i: nat | i < |l.attempts| && l.attempts[i].user == user && l.attempts[i].window == window &&
                          l.attempts[i].count <= max| <= max
  {
    var l := Exec(start, moves);
    AlwaysInv(start, moves);
    var s := set i: nat | i < |l.attempts| && l.attempts[i].user == user && l.attempts[i].window == window &&
                          l.attempts[i].count <= max;
    forall i | i in s ensures l.attempts[i].count >= 1 {
      assert Placed(l.attempts[i], Starts(l, user), l.coord.now);
    }
    OneWindow(l, s, user, max, window);
  }

  /** INCR and EXPIRE are two commands: if the caller that opened a window stops in between, that window never
      ends, so (with WindowAdmitsAtMostMax) the user is refused for ever once it is full. */
  lemma {:induction false} AbandonedWindowNeverEnds(start: nat, moves: seq<Move>, more: seq<Move>, caller: nat,
      l: Limiter, l': Limiter)
    requires l == Exec(start, moves) && l' == Exec(start, moves + more)
    requires caller in l.owed && Follow(caller) !in more
    ensures caller in l'.owed && l'.owed[caller] == l.owed[caller]
            && Starts(l', l.owed[caller]) == Starts(l, l.owed[caller])
    decreases |more|
  {
    if more == [] {
      assert moves + more == moves;
    } else {
      var less, last := more[..|more| - 1], more[|more| - 1];
      AllButLast(more, Follow(caller));
      var l1 := Exec(start, moves + less);
      AbandonedWindowNeverEnds(start, moves, less, caller, l, l1);
      AlwaysInv(start, moves + less);
      StillOwed(l1, last, caller);
      Regroup(moves, more);
      Extend(start, moves + less, last);
    }
  }

  lemma AllButLast(more: seq<Move>, m: Move)
    requires more != [] && m !in more
    ensures m !in more[..|more| - 1] && m != more[|more| - 1]
  {
  }

  lemma Regroup(moves: seq<Move>, more: seq<Move>)
    requires more != []
    ensures moves + more == moves + more[..|more| - 1] + [more[|more| - 1]]
  {
  }

  lemma StillOwed(l: Limiter, m: Move, caller: nat)
    requires Inv(l) && caller in l.owed && m != Follow(caller)
    ensures var l' := Step(l, m);
            caller in l'.owed && l'.owed[caller] == l.owed[caller]
            && Starts(l', l.owed[caller]) == Starts(l, l.owed[caller])
  {
    assert WindowOk(l, l.owed[caller]);
  }

  // ---- When a window ends ----

  /** The user's key is gone, or a later window has opened. */
  predicate Ended(l: Limiter, l': Limiter, user: string) {
    user !in l'.coord.rate || |Starts(l', user)| > |Starts(l, user)|
  }

  /** The window of `l` is armed with a deadline, or over. */
  predicate ArmedOrEnded(l: Limiter, l': Limiter, user: string, deadline: nat) {
    |Starts(l', user)| >= |Starts(l, user)| && (Ended(l, l', user) || l'.coord.rate[user].expiry == Some(deadline))
  }

  lemma CallKeepsArmed(l: Limiter, l': Limiter, user: string, deadline: nat, caller: nat, other: string)
    requires Inv(l') && ArmedOrEnded(l, l', user, deadline)
    ensures ArmedOrEnded(l, Step(l', Call(caller, other)), user, deadline)
  {
    if user != other {
      CallOnOthers(l', caller, other, user);
    }
  }

  lemma StepKeepsArmed(l: Limiter, l': Limiter, m: Move, user: string, deadline: nat)
    requires Inv(l') && ArmedOrEnded(l, l', user, deadline)
    ensures ArmedOrEnded(l, Step(l', m), user, deadline)
  {
    match m
    case Call(caller, other) => CallKeepsArmed(l, l', user, deadline, caller, other);
    case Follow(_) =>
    case Other(cmd) => if !cmd.RateHit? && !cmd.RateArm? { OtherOnRate(l'.coord, cmd); }
  }

  lemma {:induction false} StaysArmed(start: nat, moves: seq<Move>, more: seq<Move>, l: Limiter, l0: Limiter,
      l': Limiter, user: string, deadline: nat)
    requires l0 == Exec(start, moves) && l' == Exec(start, moves + more) && ArmedOrEnded(l, l0, user, deadline)
    ensures ArmedOrEnded(l, l', user, deadline)
    decreases |more|
  {
    if more == [] {
      assert moves + more == moves;
    } else {
      var less, last := more[..|more| - 1], more[|more| - 1];
      var l1 := Exec(start, moves + less);
      StaysArmed(start, moves, less, l, l0, l1, user, deadline);
      AlwaysInv(start, moves + less);
      StepKeepsArmed(l, l1, last, user, deadline);
      Regroup(moves, more);
      Extend(start, moves + less, last);
    }
  }

  /** The opener's EXPIRE arms its window. */
  lemma FollowArms(l: Limiter, l1: Limiter, caller: nat, user: string)
    requires Inv(l1) && caller in l1.owed && l1.owed[caller] == user && Starts(l1, user) == Starts(l, user)
    ensures ArmedOrEnded(l, Step(l1, Follow(caller)), user, l1.coord.now + WINDOW)
  {
  }

  lemma SentMeansEnded(start: nat, moves: seq<Move>, more: seq<Move>, caller: nat, k: nat, l: Limiter, l': Limiter)
    requires l == Exec(start, moves) && l' == Exec(start, moves + more) && caller in l.owed
    requires k < |more| && more[k] == Follow(caller) && Follow(caller) !in more[..k]
    requires l'.coord.now >= Exec(start, moves + more[..k]).coord.now + WINDOW
    ensures Ended(l, l', l.owed[caller])
  {
    var user := l.owed[caller];
    var l1 := Exec(start, moves + more[..k]);
    AbandonedWindowNeverEnds(start, moves, more[..k], caller, l, l1);
    AlwaysInv(start, moves + more[..k]);
    FollowArms(l, l1, caller, user);
    Extend(start, moves + more[..k], Follow(caller));
    var upTo := moves + more[..k] + [Follow(caller)];
    assert upTo + more[k + 1..] == moves + more;
    StaysArmed(start, upTo, more[k + 1..], l, Exec(start, upTo), l', user, l1.coord.now + WINDOW);
    AlwaysInv(start, moves + more);
    assert WindowOk(l', user);
  }

  /** Whether a window ever ends depends on its opener's EXPIRE and on nothing else: `k` is where in a continuation the
      opener sends it (the length, if it does not), and a window's length is left after it. */
  lemma WindowEndsIff(start: nat, moves: seq<Move>, more: seq<Move>, caller: nat, k: nat, l: Limiter, l': Limiter)
    requires l == Exec(start, moves) && l' == Exec(start, moves + more) && caller in l.owed
    requires k <= |more| && Follow(caller) !in more[..k]
    requires k < |more| ==> more[k] == Follow(caller)
                            && l'.coord.now >= Exec(start, moves + more[..k]).coord.now + WINDOW
    ensures Ended(l, l', l.owed[caller]) <==> k < |more|
  {
    if k < |more| {
      SentMeansEnded(start, moves, more, caller, k, l, l');
    } else {
      assert more[..k] == more;
      AbandonedWindowNeverEnds(start, moves, more, caller, l, l');
      AlwaysInv(start, moves + more);
    }
  }

  /** One call opens a window and owes its EXPIRE: both cases are there from the first call on. */
  lemma OneCallOwes(start: nat, caller: nat, user: string)
    ensures Exec(start, [Call(caller, user)]).owed == map[caller := user]
  {
    assert [Call(caller, user)][..0] == [];
  }

  function Calls(user: string, n: nat, caller: nat): seq<Move> {
    seq(n, i => Call(caller, user))
  }

  /** `end` is `l` after n more calls within a window: they count on from its counter and owe nothing. */
  predicate CalledOn(l: Limiter, end: Limiter, user: string, n: nat)
    requires user in l.coord.rate
  {
    && user in end.coord.rate && end.coord.rate[user].value == l.coord.rate[user].value + n
    && end.coord.rate[user].expiry == l.coord.rate[user].expiry
    && end.coord.now == l.coord.now && end.owed == l.owed
    && |end.attempts| == |l.attempts| + n && l.attempts <= end.attempts
    && (forall k :: |l.attempts| <= k < |end.attempts| ==>
          end.attempts[k].user == user && end.attempts[k].time == l.coord.now &&
          end.attempts[k].count == l.coord.rate[user].value + 1 + k - |l.attempts|)
  }

  lemma Extend(start: nat, moves: seq<Move>, m: Move)
    ensures Exec(start, moves + [m]) == Step(Exec(start, moves), m)
  {
    assert (moves + [m])[..|moves|] == moves;
  }

  lemma OneMoreCall(l: Limiter, l1: Limiter, user: string, n: nat, caller: nat)
    requires user in l.coord.rate && l.coord.rate[user].value >= 1 && caller !in l.owed && CalledOn(l, l1, user, n)
    ensures CalledOn(l, Step(l1, Call(caller, user)), user, n + 1)
  {
  }

  lemma {:induction false} MoreCalls(start: nat, moves: seq<Move>, user: string, n: nat, caller: nat, l: Limiter,
      end: Limiter)
    requires l == Exec(start, moves) && end == Exec(start, moves + Calls(user, n, caller))
    requires user in l.coord.rate && l.coord.rate[user].value >= 1 && caller !in l.owed
    ensures CalledOn(l, end, user, n)
    decreases n
  {
    if n == 0 {
      assert moves + Calls(user, 0, caller) == moves;
    } else {
      var less := moves + Calls(user, n - 1, caller);
      var l1 := Exec(start, less);
      MoreCalls(start, moves, user, n - 1, caller, l, l1);
      OneMoreCall(l, l1, user, n - 1, caller);
      assert less + [Call(caller, user)] == moves + Calls(user, n, caller);
      Extend(start, less, Call(caller, user));
    }
  }

  function FirstWindow(user: string, max: nat): seq<Move>
    requires max >= 1
  {
    [Call(0, user), Follow(0), Other(Wait(WINDOW - 1))] + Calls(user, max - 1, 1)
  }

  /** One call, 59.999 s of silence, max - 1 calls; 1 ms later the next window takes max more. */
  function Burst(user: string, max: nat): seq<Move>
    requires max >= 1
  {
    FirstWindow(user, max) + [Other(Wait(1)), Call(2, user)] + Calls(user, max - 1, 1)
  }

  lemma OpenedWindow(user: string)
    ensures var l := Exec(0, [Call(0, user), Follow(0), Other(Wait(WINDOW - 1))]);
            && l.coord.now == WINDOW - 1 && l.owed == map[] && |l.attempts| == 1
            && user in l.coord.rate && l.coord.rate[user] == Timed(1, Some(WINDOW))
  {
    var m0: seq<Move> := [];
    var m1, m2, m3 := [Call(0, user)], [Call(0, user), Follow(0)], [Call(0, user), Follow(0), Other(Wait(WINDOW - 1))];
    assert m1[..0] == m0 && m2[..1] == m1 && m3[..2] == m2;
    var l1 := Step(Limiter(Empty(0), map[], [], map[]), Call(0, user));
    assert Exec(0, m1) == l1;
    assert l1.coord.rate == map[user := Timed(1, None)] && l1.owed == map[0 := user] && l1.coord.now == 0;
    assert |l1.attempts| == 1;
    var l2 := Step(l1, Follow(0));
    assert l2.coord.rate == map[user := Timed(1, Some(WINDOW))] && l2.owed == map[];
    assert Exec(0, m2) == l2;
    assert Exec(0, m3) == Step(l2, Other(Wait(WINDOW - 1)));
  }

  lemma FirstWindowState(user: string, max: nat)
    requires max >= 1
    ensures var l := Exec(0, FirstWindow(user, max));
            && l.coord.now == WINDOW - 1 && l.owed == map[] && |l.attempts| == max
            && user in l.coord.rate && l.coord.rate[user] == Timed(max, Some(WINDOW))
            && (forall k :: 1 <= k < max ==>
                  l.attempts[k].user == user && l.attempts[k].time == WINDOW - 1 && l.attempts[k].count <= max)
  {
    OpenedWindow(user);
    CallsAfter([Call(0, user), Follow(0), Other(Wait(WINDOW - 1))], user, max - 1, Exec(0, FirstWindow(user, max)));
  }

  /** From a window with one call, any number of further calls. */
  lemma {:induction false} CallsAfter(opening: seq<Move>, user: string, n: nat, end: Limiter)
    requires var l := Exec(0, opening);
             && l.coord.now == WINDOW - 1 && l.owed == map[] && |l.attempts| == 1
             && user in l.coord.rate && l.coord.rate[user] == Timed(1, Some(WINDOW))
    requires end == Exec(0, opening + Calls(user, n, 1))
    ensures && end.coord.now == WINDOW - 1 && end.owed == map[] && |end.attempts| == n + 1
            && user in end.coord.rate && end.coord.rate[user] == Timed(n + 1, Some(WINDOW))
            && (forall k :: 1 <= k < n + 1 ==>
                  end.attempts[k].user == user && end.attempts[k].time == WINDOW - 1 && end.attempts[k].count <= n + 1)
  {
    MoreCalls(0, opening, user, n, 1, Exec(0, opening), end);
  }

  lemma {:induction false} IntervalSize(lo: nat, n: nat, s: set<nat>)
    requires forall k :: lo <= k < lo + n ==> k in s
    ensures |s| >= n
    decreases n
  {
    if n > 0 {
      IntervalSize(lo, n - 1, s - {lo + n - 1});
    }
  }

  lemma SecondWindowState(user: string, max: nat)
    requires max >= 1
    ensures var l := Exec(0, FirstWindow(user, max));
            var lc := Exec(0, FirstWindow(user, max) + [Other(Wait(1)), Call(2, user)]);
            && lc.coord.now == WINDOW && 1 !in lc.owed
            && user in lc.coord.rate && lc.coord.rate[user].value == 1
            && lc.attempts == l.attempts + [Attempt(user, WINDOW, 1, |Starts(l, user)| + 1)]
  {
    var a := FirstWindow(user, max);
    FirstWindowState(user, max);
    var b, c := a + [Other(Wait(1))], a + [Other(Wait(1)), Call(2, user)];
    assert b[..|a|] == a && c[..|b|] == b;
    var l, lb := Exec(0, a), Exec(0, b);
    assert lb == Step(l, Other(Wait(1)));
    assert user !in lb.coord.rate;
  }

  /** No smaller bound holds: for every max some trace admits 2 * max - 1 calls within 60 seconds. */
  lemma BoundIsReached(user: string, max: nat)
    requires max >= 1
    ensures |Admitted(Exec(0, Burst(user, max)), user, max, 1)| >= 2 * max - 1
  {
    FirstWindowState(user, max);
    SecondWindowState(user, max);
    var c := FirstWindow(user, max) + [Other(Wait(1)), Call(2, user)];
    MoreCalls(0, c, user, max - 1, 1, Exec(0, c), Exec(0, c + Calls(user, max - 1, 1)));
    assert c + Calls(user, max - 1, 1) == Burst(user, max);
    BurstIsAdmitted(Exec(0, FirstWindow(user, max)), Exec(0, c), Exec(0, Burst(user, max)), user, max);
  }

  lemma BurstIsAdmitted(l: Limiter, lc: Limiter, end: Limiter, user: string, max: nat)
    requires max >= 1
    requires |l.attempts| == max && |lc.attempts| == max + 1 && |end.attempts| == 2 * max
    requires l.attempts <= lc.attempts <= end.attempts
    requires forall k :: 1 <= k < max ==>
               l.attempts[k].user == user && l.attempts[k].time == WINDOW - 1 && l.attempts[k].count <= max
    requires lc.attempts[max].user == user && lc.attempts[max].time == WINDOW && lc.attempts[max].count == 1
    requires forall k :: max < k < 2 * max ==>
               end.attempts[k].user == user && end.attempts[k].time == WINDOW && end.attempts[k].count == k - max + 1
    ensures |Admitted(end, user, max, 1)| >= 2 * max - 1
  {
    forall k | 1 <= k < 1 + (2 * max - 1) ensures k in Admitted(end, user, max, 1) {
      if k < max {
        assert end.attempts[k] == l.attempts[k];
      } else if k == max {
        assert end.attempts[k] == lc.attempts[k];
      }
    }
    IntervalSize(1, 2 * max - 1, Admitted(end, user, max, 1));
  }
}
