/** The service itself, with its in-memory health map and the chains its timers
    and pending requests stand for. */
module WebhooksService {
  import opened Webhooks

  class Service {
    var now: nat
    var health: map<EndpointId, Health>
    var chains: map<ChainId, Chain>
    var next: ChainId
    var log: seq<Event>

    function Now(): State
      reads this
    {
      State(now, health, chains, next, log)
    }

    constructor ()
      ensures Now() == START
    {
      now, health, chains, next, log := 0, map[], map[], 0, [];
    }

    method Tick(at: nat)
      modifies `now
      ensures now == at
    {
      now := at;
    }

    /** Sends the event to every candidate that subscribes to it and is not muted. */
    method Deliver(name: string, candidates: seq<Endpoint>, at: nat)
      requires now <= at
      modifies this
      ensures Now() == Step(old(Now()), Action.Deliver(name, candidates, at))
    {
      Tick(at);
      ghost var start := Now();
      hide Step;
      for i := 0 to |candidates|
        invariant now == at && Now() == FanOut(start, name, candidates[..i])
      {
        var e := candidates[i];
        assert candidates[..i + 1][..i] == candidates[..i];
        if !e.Subscribed(name) { continue; }
        if e.id in health && health[e.id].mutedUntil > now { continue; }
        Attempt(e.id);
      }
      assert candidates[..|candidates|] == candidates;
      FanOutIsDeliver(old(Now()), name, candidates, at);
    }

    method Attempt(e: EndpointId)
      modifies this
      ensures Now() == StartChain(old(Now()), e)
    {
      chains := chains[next := Chain(e, 0, Out)];
      log := log + [Started(next, e, now), Sent(next)];
      next := next + 1;
    }

    /** The pending send came back. */
    method OnSent(c: ChainId, ok: bool, at: nat)
      requires now <= at && c in chains && chains[c].phase == Out
      modifies this
      ensures Now() == Step(old(Now()), if ok then Accepted(c, at) else Rejected(c, at))
    {
      Tick(at);
      var chain := chains[c];
      if ok {
        OnDelivered(c);
      } else if chain.tryIdx < |RETRY_DELAYS_MS| {
        chains := chains[c := chain.(phase := Due(now + RETRY_DELAYS_MS[chain.tryIdx]))];
      } else {
        OnExhausted(c);
      }
    }

    method OnDelivered(c: ChainId)
      requires c in chains
      modifies this
      ensures Now() == Webhooks.OnDelivered(old(Now()), c)
    {
      var e := chains[c].endpoint;
      chains := chains - {c};
      log := log + [Delivered(c, e)];
      health := health - {e};
    }

    method OnExhausted(c: ChainId)
      requires c in chains
      modifies this
      ensures Now() == Webhooks.OnExhausted(old(Now()), c)
    {
      var e := chains[c].endpoint;
      chains := chains - {c};
      log := log + [Exhausted(c, e, now)];
      var state := if e in health then health[e] else Health(0, 0);
      state := state.(failures := state.failures + 1);
      if state.failures >= MUTE_AFTER_FAILURES {
        state := state.(mutedUntil := now + MUTE_COOLDOWN_MS);
      }
      health := health[e := state];
    }

    /** A retry timer fires. */
    method OnTimer(c: ChainId, at: nat)
      requires now <= at && c in chains && chains[c].phase.Due? && chains[c].phase.at <= at
      modifies this
      ensures Now() == Step(old(Now()), Retry(c, at))
    {
      Tick(at);
      chains := chains[c := Chain(chains[c].endpoint, chains[c].tryIdx + 1, Out)];
      log := log + [Sent(c)];
    }
  }

  lemma FanOutIsDeliver(s: State, name: string, candidates: seq<Endpoint>, at: nat)
    requires s.now <= at
    ensures Step(s, Action.Deliver(name, candidates, at)) == FanOut(s.(now := at), name, candidates)
  {
  }
}
