/** The notification service: an event stream and one-shot webhooks (travel-booking-notification.service.ts). */
module Notifications {
  import opened SagaTypes
  import opened SagaProtocol

  /** The webhook registry and, as history, the posts that succeeded: id and url. */
  datatype Hooks = Hooks(registry: map<string, string>, posts: seq<(string, string)>)

  /** A successful post uses up the registration; a failed one keeps it; an empty url is no registration. */
  function Send(h: Hooks, id: string, delivered: bool): Hooks {
    if id in h.registry && h.registry[id] != "" && delivered
    then Hooks(h.registry - {id}, h.posts + [(id, h.registry[id])])
    else h
  }

  class NotificationService {
    var events: seq<Note>
    var webhookRegistry: map<string, string>
    ghost var posts: seq<(string, string)>

    ghost function View(): Hooks
      reads this
    {
      Hooks(webhookRegistry, posts)
    }

    constructor ()
      ensures events == [] && View() == Hooks(map[], [])
    {
      events, webhookRegistry, posts := [], map[], [];
    }

    method RegisterWebhook(id: string, url: string)
      modifies this
      ensures events == old(events) && View() == Hooks(old(webhookRegistry)[id := url], old(posts))
    {
      webhookRegistry := webhookRegistry[id := url];
    }

    method SendWebhook(id: string, delivered: bool)
      modifies this
      ensures events == old(events) && View() == Send(old(View()), id, delivered)
    {
      if id !in webhookRegistry || webhookRegistry[id] == "" { return; }
      if delivered {
        posts := posts + [(id, webhookRegistry[id])];
        webhookRegistry := webhookRegistry - {id};
      }
    }

    method NotifyBookingConfirmed(requestId: string, bookingId: string, delivered: bool)
      modifies this
      ensures events == old(events) + [BookingConfirmed(requestId, bookingId)]
      ensures View() == Send(old(View()), requestId, delivered)
    {
      events := events + [BookingConfirmed(requestId, bookingId)];
      SendWebhook(requestId, delivered);
    }

    method NotifyBookingFailed(requestId: string, error: Message, delivered: bool)
      modifies this
      ensures events == old(events) + [BookingFailed(requestId, error)]
      ensures View() == Send(old(View()), requestId, delivered)
    {
      events := events + [BookingFailed(requestId, error)];
      SendWebhook(requestId, delivered);
    }
  }

  // ---- Serial traces ----

  datatype Op = Register(id: string, url: string) | Notify(id: string, delivered: bool)

  function Apply(h: Hooks, op: Op): Hooks {
    match op
    case Register(id, url) => h.(registry := h.registry[id := url])
    case Notify(id, delivered) => Send(h, id, delivered)
  }

  function Run(ops: seq<Op>): Hooks {
    if ops == [] then Hooks(map[], []) else Apply(Run(ops[..|ops| - 1]), ops[|ops| - 1])
  }

  function Registrations(ops: seq<Op>, id: string): nat {
    if ops == [] then 0 else
      Registrations(ops[..|ops| - 1], id) + if ops[|ops| - 1].Register? && ops[|ops| - 1].id == id then 1 else 0
  }

  function Posts(posts: seq<(string, string)>, id: string): nat {
    if posts == [] then 0 else
      Posts(posts[..|posts| - 1], id) + if posts[|posts| - 1].0 == id then 1 else 0
  }

  lemma PostsAppend(posts: seq<(string, string)>, post: (string, string), id: string)
    ensures Posts(posts + [post], id) == Posts(posts, id) + if post.0 == id then 1 else 0
  {
    assert (posts + [post])[..|posts|] == posts;
  }

  /** Each successful post consumed a registration of its own; one more is left while the id is still registered. */
  lemma {:induction false} PostsNeverExceedRegistrations(ops: seq<Op>, id: string)
    ensures Posts(Run(ops).posts, id) + (if id in Run(ops).registry then 1 else 0) <= Registrations(ops, id)
  {
    if ops != [] {
      var before := ops[..|ops| - 1];
      PostsNeverExceedRegistrations(before, id);
      var h := Run(before);
      match ops[|ops| - 1]
      case Register(_, _) =>
      case Notify(other, delivered) =>
        if other in h.registry {
          PostsAppend(h.posts, (other, h.registry[other]), id);
        }
    }
  }

  /** The url was registered for the id at some time. */
  ghost predicate Registered(ops: seq<Op>, id: string, url: string) {
    exists k :: 0 <= k < |ops| && ops[k] == Register(id, url)
  }

  lemma StaysRegistered(ops: seq<Op>, id: string, url: string)
    requires ops != [] && Registered(ops[..|ops| - 1], id, url)
    ensures Registered(ops, id, url)
  {
    var k :| 0 <= k < |ops| - 1 && ops[..|ops| - 1][k] == Register(id, url);
    assert ops[k] == Register(id, url);
  }

  lemma {:induction false} RegistryIsRegistered(ops: seq<Op>, id: string)
    requires id in Run(ops).registry
    ensures Registered(ops, id, Run(ops).registry[id])
  {
    var before, last := ops[..|ops| - 1], ops[|ops| - 1];
    if !(last.Register? && last.id == id) {
      RegistryIsRegistered(before, id);
      StaysRegistered(ops, id, Run(before).registry[id]);
    }
  }

  /** Serially, a post goes to a url that was registered for its id, and never to an empty one. */
  lemma {:induction false} PostsGoWhereRegistered(ops: seq<Op>, k: nat)
    requires k < |Run(ops).posts|
    ensures var (id, url) := Run(ops).posts[k]; url != "" && Registered(ops, id, url)
  {
    var before := ops[..|ops| - 1];
    var (id, url) := Run(ops).posts[k];
    if k < |Run(before).posts| {
      PostsGoWhereRegistered(before, k);
    } else {
      RegistryIsRegistered(before, id);
    }
    StaysRegistered(ops, id, url);
  }

  /** A registration outlives any number of failed posts. */
  lemma {:induction false} FailedPostsKeepRegistration(h: Hooks, id: string, tries: nat)
    ensures SendFailing(h, id, tries) == h
  {
    if tries > 0 {
      FailedPostsKeepRegistration(h, id, tries - 1);
    }
  }

  function SendFailing(h: Hooks, id: string, tries: nat): Hooks {
    if tries == 0 then h else Send(SendFailing(h, id, tries - 1), id, false)
  }
}
