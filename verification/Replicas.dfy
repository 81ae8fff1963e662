/**
 A serving process: the start-up order, the pub/sub listener and its handler tasks.
 */
module Replicas {
  import opened Evaluation
  import opened FlagCaches

  // ---------------------------------------------------------------- the listener

  /** Messages sent to the connection and not yet read, and handler tasks created and not yet run. */
  datatype ListenerState = ListenerState(subscribed: bool, inbox: seq<Message>, tasks: seq<Message>, attempt: nat)

  const NOT_LISTENING := ListenerState(false, [], [], 0)

  function Subscribed(l: ListenerState): ListenerState {
    l.(subscribed := true, attempt := 0)
  }

  /** Read one message and create a task for it. */
  function Received(l: ListenerState): ListenerState
    requires l.inbox != []
  {
    l.(inbox := l.inbox[1..], tasks := l.tasks + [l.inbox[0]])
  }

  /** The connection is lost with everything unread on it; tasks already created stay. */
  function ConnectionLost(l: ListenerState): ListenerState {
    l.(subscribed := false, inbox := [], attempt := l.attempt + 1)
  }

  function WithoutTask(tasks: seq<Message>, i: nat): seq<Message>
    requires i < |tasks|
  {
    tasks[..i] + tasks[i + 1..]
  }

  const RECONNECT_DELAYS: seq<nat> := [1, 2, 5, 10, 30]

  function Delay(attempt: nat): nat {
    RECONNECT_DELAYS[if attempt < |RECONNECT_DELAYS| then attempt else |RECONNECT_DELAYS| - 1]
  }

  /** `_listen_for_invalidations`, one suspension point at a time. */
  class Listener {
    const cache: FlagCache
    var subscribed: bool
    var inbox: seq<Message>
    var tasks: seq<Message>
    var attempt: nat

    constructor (cache: FlagCache)
      ensures this.cache == cache && State() == NOT_LISTENING
    {
      this.cache := cache;
      subscribed, inbox, tasks, attempt := false, [], [], 0;
    }

    function State(): ListenerState
      reads this
    {
      ListenerState(subscribed, inbox, tasks, attempt)
    }

    method Subscribe()
      requires !subscribed
      modifies this
      ensures State() == Subscribed(old(State()))
      ensures subscribed && attempt == 0 && inbox == old(inbox) && tasks == old(tasks)
    {
      subscribed := true;
      attempt := 0;
    }

    method Receive()
      requires inbox != []
      modifies this
      ensures State() == Received(old(State()))
      ensures [old(inbox)[0]] + inbox == old(inbox) && tasks == old(tasks) + [old(inbox)[0]]
      ensures subscribed == old(subscribed) && attempt == old(attempt)
    {
      var data := inbox[0];
      inbox := inbox[1..];
      tasks := tasks + [data];
    }

    /** The event loop runs any one of the created tasks. */
    method RunTask(i: nat)
      requires i < |tasks|
      modifies this, cache
      ensures State() == old(State()).(tasks := WithoutTask(old(tasks), i))
      ensures tasks == old(tasks)[..i] + old(tasks)[i + 1..] && inbox == old(inbox) && subscribed == old(subscribed)
      ensures cache.State() == old(cache.State()).(flags := Handled(old(cache.flags), old(tasks)[i]))
      ensures var key := old(tasks)[i].flagKey.GetOr("");
        cache.flags == if key == "" then old(cache.flags) else old(cache.flags) - {key}
    {
      cache.HandleInvalidationMessage(tasks[i]);
      tasks := WithoutTask(tasks, i);
    }

    method LoseConnection() returns (delay: nat)
      modifies this
      ensures State() == ConnectionLost(old(State()))
      ensures !subscribed && inbox == [] && tasks == old(tasks) && attempt == old(attempt) + 1
      ensures delay == match old(attempt) case 0 => 1 case 1 => 2 case 2 => 5 case 3 => 10 case _ => 30
    {
      delay := Delay(attempt);
      subscribed, inbox := false, [];
      attempt := attempt + 1;
    }
  }

  // ---------------------------------------------------------------- the process

  /** Loading: `load_fn` has returned and its result is not installed yet. */
  datatype Phase = Down | Loading | Ready

  /**
   A process. `missed` is a history variable: the keys for which an invalidation was published, or
   may still have to take effect, without reaching this process.
   */
  datatype Replica = Replica(
    phase: Phase, loaded: seq<FlagDict>, cache: CacheState, listener: ListenerState, missed: set<string>)

  const STOPPED := Replica(Down, [], EMPTY_CACHE, NOT_LISTENING, {})

  /** The snapshots a process serves, or is about to install. */
  function Held(rep: Replica): Flags {
    if rep.phase == Loading then (if AllKeyed(rep.loaded) then Indexed(rep.loaded) else map[]) else rep.cache.flags
  }

  /** An invalidation of `k` is on its way to this process, or has passed it by. */
  predicate InFlight(rep: Replica, k: string) {
    k in Mentioned(rep.listener.inbox) || k in Mentioned(rep.listener.tasks)
  }

  predicate Covered(rep: Replica, k: string) {
    InFlight(rep, k) || k in rep.missed
  }

  lemma MentionedConcat(a: seq<Message>, b: seq<Message>)
    ensures Mentioned(a + b) == Mentioned(a) + Mentioned(b)
  {}

  /** Receiving moves a message, so what is on its way stays on its way. */
  lemma ReceivedKeepsInFlight(rep: Replica, k: string)
    requires rep.listener.inbox != []
    ensures InFlight(rep.(listener := Received(rep.listener)), k) <==> InFlight(rep, k)
  {}

  lemma WithoutTaskMentions(tasks: seq<Message>, i: nat)
    requires i < |tasks|
    ensures Mentioned(tasks) == Mentioned(WithoutTask(tasks, i)) + Removes(tasks[i])
  {}
}
