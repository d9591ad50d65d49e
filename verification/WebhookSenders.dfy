/** Webhook senders that overlap: any number of them interleaved with registrations. */
module WebhookSenders {
  import N = Notifications

  /** A call of sendWebhook that found a url and waits for its post, or is over. */
  datatype Sender = Posting(id: string, url: string) | Sent

  /** `overlapped` is history: the ids for which a sender started while another one was posting. */
  datatype World = World(hooks: N.Hooks, senders: map<nat, Sender>, overlapped: set<string>)

  /** The lookup is made when the sender starts; the deletion follows the post it waited for. */
  datatype Move =
    | Put(id: string, url: string)
    | Begin(sender: nat, id: string)
    | Finish(sender: nat, delivered: bool)

  predicate IsPosting(senders: map<nat, Sender>, i: nat, id: string) {
    i in senders && senders[i].Posting? && senders[i].id == id
  }

  predicate AnyPosting(senders: map<nat, Sender>, id: string) {
    exists i :: i in senders && IsPosting(senders, i, id)
  }

  function Step(w: World, m: Move): World {
    match m
    case Put(id, url) => w.(hooks := w.hooks.(registry := w.hooks.registry[id := url]))
    case Begin(i, id) =>
      if i in w.senders then w
      else if id in w.hooks.registry && w.hooks.registry[id] != "" then
        World(w.hooks, w.senders[i := Posting(id, w.hooks.registry[id])],
              if AnyPosting(w.senders, id) then w.overlapped + {id} else w.overlapped)
      else w.(senders := w.senders[i := Sent])
    case Finish(i, delivered) =>
      if i !in w.senders || w.senders[i].Sent? then w else
        var (id, url) := (w.senders[i].id, w.senders[i].url);
        World(if delivered then N.Hooks(w.hooks.registry - {id}, w.hooks.posts + [(id, url)]) else w.hooks,
              w.senders[i := Sent], w.overlapped)
  }

  function Exec(w: World, moves: seq<Move>): World {
    if moves == [] then w else Step(Exec(w, moves[..|moves| - 1]), moves[|moves| - 1])
  }

  const START: World := World(N.Hooks(map[], []), map[], {})

  /** A sender that nothing interrupts is the serial operation. */
  lemma UninterruptedSender(w: World, i: nat, id: string, delivered: bool)
    requires i !in w.senders
    ensures Step(Step(w, Begin(i, id)), Finish(i, delivered)).hooks == N.Send(w.hooks, id, delivered)
  {
  }

  function PutCount(moves: seq<Move>, id: string): nat {
    if moves == [] then 0 else
      PutCount(moves[..|moves| - 1], id) + if moves[|moves| - 1].Put? && moves[|moves| - 1].id == id then 1 else 0
  }

  /** Successful posts of an id, and one more if it is registered. */
  function Used(h: N.Hooks, id: string): nat {
    N.Posts(h.posts, id) + if id in h.registry then 1 else 0
  }

  predicate Posted(w: World, m: Move, id: string) {
    m.Finish? && m.delivered && IsPosting(w.senders, m.sender, id)
  }

  lemma FinishPosts(w: World, m: Move, id: string)
    requires m.Finish?
    ensures N.Posts(Step(w, m).hooks.posts, id) == N.Posts(w.hooks.posts, id) + if Posted(w, m, id) then 1 else 0
  {
    if m.sender in w.senders && w.senders[m.sender].Posting? {
      N.PostsAppend(w.hooks.posts, (w.senders[m.sender].id, w.senders[m.sender].url), id);
    }
  }

  /** When a step uses more than it registers: exactly when a post succeeds whose registration another sender has
      already deleted. */
  lemma ExcessExactlyWhen(w: World, m: Move, id: string)
    ensures Used(Step(w, m).hooks, id) > Used(w.hooks, id) + PutCount([m], id) <==>
            Posted(w, m, id) && id !in w.hooks.registry
  {
    assert [m][..0] == [];
    if m.Finish? {
      FinishPosts(w, m, id);
    }
  }

  /** Without overlap, an id has at most one sender, and that one's registration is still there. */
  ghost predicate Undisturbed(w: World, id: string) {
    && (forall i, j :: IsPosting(w.senders, i, id) && IsPosting(w.senders, j, id) ==> i == j)
    && (AnyPosting(w.senders, id) ==> id in w.hooks.registry)
  }

  lemma StepUndisturbed(w: World, m: Move, id: string)
    requires Undisturbed(w, id) && id !in Step(w, m).overlapped
    ensures Undisturbed(Step(w, m), id)
    ensures Used(Step(w, m).hooks, id) <= Used(w.hooks, id) + PutCount([m], id)
  {
    ExcessExactlyWhen(w, m, id);
    var w' := Step(w, m);
    forall i | IsPosting(w'.senders, i, id) && !(m.Begin? && m.sender == i) ensures IsPosting(w.senders, i, id) {
    }
    if Posted(w, m, id) {
      assert AnyPosting(w.senders, id) by { assert IsPosting(w.senders, m.sender, id); }
    }
    if i :| i in w'.senders && IsPosting(w'.senders, i, id) && !(m.Begin? && m.sender == i) {
      assert AnyPosting(w.senders, id);
    }
  }

  /** Over every interleaving: posts of an id exceed its registrations only if two senders of that id overlapped. */
  lemma {:induction false} ExcessNeedsOverlap(moves: seq<Move>, id: string)
    requires id !in Exec(START, moves).overlapped
    ensures Undisturbed(Exec(START, moves), id)
    ensures N.Posts(Exec(START, moves).hooks.posts, id)
            + (if id in Exec(START, moves).hooks.registry then 1 else 0) <= PutCount(moves, id)
  {
    if moves != [] {
      var before, m := moves[..|moves| - 1], moves[|moves| - 1];
      assert Exec(START, before).overlapped <= Exec(START, moves).overlapped;
      ExcessNeedsOverlap(before, id);
      StepUndisturbed(Exec(START, before), m, id);
      assert [m][..0] == [];
    }
  }

  lemma Extend(w: World, moves: seq<Move>, m: Move)
    ensures Exec(w, moves + [m]) == Step(Exec(w, moves), m)
  {
    assert (moves + [m])[..|moves|] == moves;
  }

  lemma PutCountAppend(moves: seq<Move>, m: Move, id: string)
    ensures PutCount(moves + [m], id) == PutCount(moves, id) + if m.Put? && m.id == id then 1 else 0
  {
    assert (moves + [m])[..|moves|] == moves;
  }

  /** One registration and two senders that started on it. */
  lemma TwoPosting(id: string, url: string) returns (moves: seq<Move>)
    requires url != ""
    ensures Exec(START, moves) == World(N.Hooks(map[id := url], []), map[0 := Posting(id, url), 1 := Posting(id, url)],
                                        {id})
    ensures PutCount(moves, id) == 1
  {
    var a, b, c := Put(id, url), Begin(0, id), Begin(1, id);
    Extend(START, [], a);
    Extend(START, [] + [a], b);
    Extend(START, [] + [a] + [b], c);
    PutCountAppend([], a, id);
    PutCountAppend([] + [a], b, id);
    PutCountAppend([] + [a] + [b], c, id);
    assert IsPosting(Exec(START, [] + [a] + [b]).senders, 0, id);
    moves := [] + [a] + [b] + [c];
  }

  /** And overlap is enough: from any world in which two senders of an id are posting, both can succeed, and at most one
      registration pays for the two posts. */
  lemma OverlapPostsTwice(w: World, i: nat, j: nat, id: string)
    requires i != j && IsPosting(w.senders, i, id) && IsPosting(w.senders, j, id)
    ensures var end := Step(Step(w, Finish(i, true)), Finish(j, true)).hooks;
            N.Posts(end.posts, id) == N.Posts(w.hooks.posts, id) + 2 && id !in end.registry
  {
    FinishPosts(w, Finish(i, true), id);
    FinishPosts(Step(w, Finish(i, true)), Finish(j, true), id);
  }

  lemma TwoPosts(id: string, url: string) returns (moves: seq<Move>)
    requires url != ""
    ensures N.Posts(Exec(START, moves).hooks.posts, id) == 2 && PutCount(moves, id) == 1
  {
    var before := TwoPosting(id, url);
    var a, b := Finish(0, true), Finish(1, true);
    Extend(START, before, a);
    Extend(START, before + [a], b);
    OverlapPostsTwice(Exec(START, before), 0, 1, id);
    PutCountAppend(before, a, id);
    PutCountAppend(before + [a], b, id);
    moves := before + [a] + [b];
  }

  /** Reachable: one registration, two successful posts. */
  lemma ConcurrentSendersPostTwice(id: string, url: string)
    requires url != ""
    ensures exists moves :: N.Posts(Exec(START, moves).hooks.posts, id) == 2 && PutCount(moves, id) == 1
  {
    var moves := TwoPosts(id, url);
  }

  // ---- Registrations made while a sender posts ----

  /** No post of the id was delivered along the moves. */
  predicate NonePosted(w: World, moves: seq<Move>, id: string) {
    moves == [] ||
    (NonePosted(w, moves[..|moves| - 1], id) && !Posted(Exec(w, moves[..|moves| - 1]), moves[|moves| - 1], id))
  }

  /** A registration is deleted by id, not by url: while nobody registers the id again, it lasts exactly until some
      sender of that id, whatever url it looked up and whenever, has its post delivered. */
  lemma {:induction false} RegistrationLastsUntilAPost(w: World, moves: seq<Move>, id: string)
    requires id in w.hooks.registry && PutCount(moves, id) == 0
    ensures var w' := Exec(w, moves);
            && (id in w'.hooks.registry <==> NonePosted(w, moves, id))
            && (id in w'.hooks.registry ==> w'.hooks.registry[id] == w.hooks.registry[id])
    decreases |moves|
  {
    if moves != [] {
      RegistrationLastsUntilAPost(w, moves[..|moves| - 1], id);
    }
  }

  /** So a url registered while a sender posts to an earlier one is lost with that post's success, and the post went to
      the earlier url; if the post fails, it stays. */
  lemma LateRegistrationIsLost(w: World, i: nat, url: string, delivered: bool)
    requires i in w.senders && w.senders[i].Posting?
    ensures var id := w.senders[i].id;
            var w' := Step(Step(w, Put(id, url)), Finish(i, delivered));
            if delivered then id !in w'.hooks.registry && w'.hooks.posts == w.hooks.posts + [(id, w.senders[i].url)]
            else id in w'.hooks.registry && w'.hooks.registry[id] == url && w'.hooks.posts == w.hooks.posts
  {
  }
}
