/** What every step of webhook delivery adds to the history a receiver can observe:
    whom an event reaches, how long a failed send waits, and whose outcome it is. */
module WebhookHistory {
  import opened Webhooks

  // ---- Whom an event reaches -----------------------------------------------

  /** The endpoint wants the event, and by history its mute time has passed. */
  ghost predicate Wanted(log: seq<Event>, e: Endpoint, name: string, at: nat) {
    (e.events == [] || exists k :: 0 <= k < |e.events| && e.events[k] == name) && MuteTime(log, e.id) <= at
  }

  /** The candidates an event is to reach, in order. */
  ghost function Reached(log: seq<Event>, candidates: seq<Endpoint>, name: string, at: nat): seq<EndpointId>
    decreases |candidates|
  {
    if candidates == [] then []
    else
      var last := candidates[|candidates| - 1];
      Reached(log, candidates[..|candidates| - 1], name, at) + if Wanted(log, last, name, at) then [last.id] else []
  }

  /** One start and one send for each endpoint, in order, and nothing else; chains
      are numbered from `first` on. */
  ghost predicate Announces(tail: seq<Event>, ids: seq<EndpointId>, first: ChainId, at: nat) {
    && |tail| == 2 * |ids|
    && forall k :: 0 <= k < |ids| ==>
         tail[2 * k] == Started(first + k, ids[k], at) && tail[2 * k + 1] == Sent(first + k)
  }

  /** The chains of `ids` are out, and no other is touched. */
  ghost predicate OneChainEach(s: State, t: State, ids: seq<EndpointId>) {
    && t.next == s.next + |ids|
    && (forall c <- s.chains :: c in t.chains && t.chains[c] == s.chains[c])
    && (forall c :: s.next <= c < t.next ==> c in t.chains && t.chains[c] == Chain(ids[c - s.next], 0, Out))
    && (forall c <- t.chains :: c in s.chains || s.next <= c < t.next)
  }

  /** What an event does to `s` when it reaches `ids`. */
  ghost predicate Reaches(s: State, t: State, ids: seq<EndpointId>) {
    && s.log <= t.log && Announces(t.log[|s.log|..], ids, s.next, s.now)
    && OneChainEach(s, t, ids) && t.health == s.health && t.now == s.now
  }

  lemma OneMoreAnnounced(tail: seq<Event>, ids: seq<EndpointId>, first: ChainId, at: nat, e: EndpointId)
    requires Announces(tail, ids, first, at)
    ensures Announces(tail + [Started(first + |ids|, e, at), Sent(first + |ids|)], ids + [e], first, at)
  {
  }

  lemma OneMoreReached(s: State, before: State, ids: seq<EndpointId>, e: EndpointId)
    requires Reaches(s, before, ids) && forall c <- s.chains :: c < s.next
    ensures Reaches(s, StartChain(before, e), ids + [e])
  {
    var t, tail := StartChain(before, e), before.log[|s.log|..];
    OneMoreAnnounced(tail, ids, s.next, s.now, e);
    assert t.log[|s.log|..] == tail + [Started(before.next, e, s.now), Sent(before.next)];
    assert t.chains == before.chains[s.next + |ids| := Chain(e, 0, Out)];
    hide Announces, StartChain;
  }

  lemma {:induction false} FanOutReaches(s: State, name: string, candidates: seq<Endpoint>)
    requires Inv(s)
    ensures Reaches(s, FanOut(s, name, candidates), Reached(s.log, candidates, name, s.now))
    decreases |candidates|
  {
    if candidates == [] {
      assert s.log[|s.log|..] == [];
    } else {
      var front, e := candidates[..|candidates| - 1], candidates[|candidates| - 1];
      FanOutReaches(s, name, front);
      var before, ids := FanOut(s, name, front), Reached(s.log, front, name, s.now);
      WantedIffServed(s, before, e, name);
      ChainsAreNumbered(s);
      hide Wanted, Muted, Inv, Reaches, Endpoint.Subscribed, StartChain;
      if Wanted(s.log, e, name, s.now) {
        OneMoreReached(s, before, ids, e.id);
      } else {
        assert ids + [] == ids;
      }
    }
  }

  lemma ChainsAreNumbered(s: State)
    requires Inv(s)
    ensures forall c <- s.chains :: c < s.next
  {
    forall c | c in s.chains ensures c < s.next {
      assert ChainCounted(s, c);
    }
  }

  lemma WantedIffServed(s: State, before: State, e: Endpoint, name: string)
    requires Inv(s) && before.health == s.health && before.now == s.now
    ensures e.Subscribed(name) && !Muted(before, e.id) <==> Wanted(s.log, e, name, s.now)
  {
    assert MuteTime(s.log, e.id) == if e.id in s.health then s.health[e.id].mutedUntil else 0;
    hide MuteTime, Inv;
  }

  /** An event is sent, in order and once, to every candidate that has no list of
      events or lists this one, and whose mute time by history has passed; to no
      other; and nothing else is recorded. */
  lemma DeliveryReaches(s: State, name: string, candidates: seq<Endpoint>, at: nat)
    requires Inv(s) && s.now <= at
    ensures Reaches(s.(now := at), Step(s, Deliver(name, candidates, at)), Reached(s.log, candidates, name, at))
  {
    TickKeeps(s, at);
    hide Inv, FanOut, Reaches;
    FanOutReaches(s.(now := at), name, candidates);
  }

  // ---- How long a failed send waits ------------------------------------------

  /** After the first, second and third failed send of a chain the next is due two,
      eight and thirty seconds later; after the fourth there is none, and the chain
      is recorded as given up on at that moment. */
  lemma RetriesWait(s: State, c: ChainId, at: nat)
    requires Inv(s) && Enabled(s, Rejected(c, at))
    ensures var t := Step(s, Rejected(c, at));
            match Sends(s.log, c)
            case 1 => t.log == s.log && t.chains == s.chains[c := s.chains[c].(phase := Due(at + 2_000))]
            case 2 => t.log == s.log && t.chains == s.chains[c := s.chains[c].(phase := Due(at + 8_000))]
            case 3 => t.log == s.log && t.chains == s.chains[c := s.chains[c].(phase := Due(at + 30_000))]
            case _ => t.log == s.log + [Exhausted(c, s.chains[c].endpoint, at)] && t.chains == s.chains - {c}
  {
    assert ChainCounted(s, c);
    hide FollowsHistory, StartsAllowed, GivenUpLate, Sends, Outcomes;
  }

  // ---- Whose outcome it is ---------------------------------------------------

  ghost predicate StartedFor(log: seq<Event>, c: ChainId, e: EndpointId) {
    exists k :: 0 <= k < |log| && log[k].Started? && log[k].chain == c && log[k].endpoint == e
  }

  predicate IsOutcome(e: Event) { e.Delivered? || e.Exhausted? }

  /** Every chain in flight, and every outcome, is of the endpoint its chain was
      started for; chains are started once; no event is of the future. */
  ghost predicate Attributed(s: State) {
    && (forall c <- s.chains :: c < s.next && StartedFor(s.log, c, s.chains[c].endpoint))
    && (forall k :: 0 <= k < |s.log| && IsOutcome(s.log[k]) ==> StartedFor(s.log, s.log[k].chain, s.log[k].endpoint))
    && (forall k :: 0 <= k < |s.log| && s.log[k].Started? ==> s.log[k].chain < s.next)
    && (forall j, k :: 0 <= j < k < |s.log| && s.log[j].Started? && s.log[k].Started? ==>
        s.log[j].chain != s.log[k].chain)
  }

  lemma StillStarted(log: seq<Event>, more: seq<Event>, c: ChainId, e: EndpointId)
    requires StartedFor(log, c, e)
    ensures StartedFor(log + more, c, e)
  {
    var k :| 0 <= k < |log| && log[k].Started? && log[k].chain == c && log[k].endpoint == e;
    assert (log + more)[k] == log[k];
  }

  /** The log grows by events that start nothing, about chains that are in flight. */
  lemma GrowthAttributed(s: State, t: State, more: seq<Event>)
    requires Attributed(s) && t.log == s.log + more && t.next == s.next
    requires forall c <- t.chains :: c in s.chains && t.chains[c].endpoint == s.chains[c].endpoint
    requires forall k :: 0 <= k < |more| ==> !more[k].Started?
    requires forall k :: 0 <= k < |more| && IsOutcome(more[k]) ==>
               more[k].chain in s.chains && more[k].endpoint == s.chains[more[k].chain].endpoint
    ensures Attributed(t)
  {
    forall c, e | StartedFor(s.log, c, e) ensures StartedFor(t.log, c, e) {
      StillStarted(s.log, more, c, e);
    }
    hide StartedFor;
    forall k | 0 <= k < |t.log| && IsOutcome(t.log[k]) ensures StartedFor(t.log, t.log[k].chain, t.log[k].endpoint) {
      assert k >= |s.log| ==> t.log[k] == more[k - |s.log|];
    }
    assert forall k :: 0 <= k < |t.log| && t.log[k].Started? ==> k < |s.log| && t.log[k] == s.log[k];
  }

  lemma StartAttributed(s: State, e: EndpointId)
    requires Attributed(s)
    ensures Attributed(StartChain(s, e))
  {
    var t := StartChain(s, e);
    var more := [Started(s.next, e, s.now), Sent(s.next)];
    assert t.log == s.log + more && t.log[|s.log|] == more[0];
    assert StartedFor(t.log, s.next, e);
    forall c, d | StartedFor(s.log, c, d) ensures StartedFor(t.log, c, d) {
      StillStarted(s.log, more, c, d);
    }
    hide StartedFor;
    assert forall k :: 0 <= k < |t.log| && IsOutcome(t.log[k]) ==> k < |s.log| && t.log[k] == s.log[k];
    assert forall k :: 0 <= k < |t.log| && t.log[k].Started? ==> k == |s.log| || (k < |s.log| && t.log[k] == s.log[k]);
  }

  lemma {:induction false} FanOutAttributed(s: State, name: string, candidates: seq<Endpoint>)
    requires Attributed(s)
    ensures Attributed(FanOut(s, name, candidates))
    decreases |candidates|
  {
    hide Attributed;
    if candidates != [] {
      var front, e := candidates[..|candidates| - 1], candidates[|candidates| - 1];
      FanOutAttributed(s, name, front);
      StartAttributed(FanOut(s, name, front), e.id);
    }
  }

  lemma StepAttributed(s: State, a: Action)
    requires Attributed(s) && Enabled(s, a)
    ensures Attributed(Step(s, a))
  {
    var now, t := s.(now := a.at), Step(s, a);
    assert Attributed(now);
    match a
    case Deliver(name, candidates, _) => FanOutAttributed(now, name, candidates);
    case Accepted(c, at) => GrowthAttributed(now, t, [Delivered(c, s.chains[c].endpoint)]);
    case Rejected(c, at) =>
      hide Attributed;
      if s.chains[c].tryIdx < |RETRY_DELAYS_MS| {
        assert t.log == now.log + [];
        GrowthAttributed(now, t, []);
      } else {
        GrowthAttributed(now, t, [Exhausted(c, s.chains[c].endpoint, at)]);
      }
    case Retry(c, at) => GrowthAttributed(now, t, [Sent(c)]);
  }

  lemma {:induction false} LeadsAttributed(s: State, actions: seq<Action>, t: State)
    requires Attributed(s) && Leads(s, actions, t)
    ensures Attributed(t)
    decreases |actions|
  {
    hide Attributed, Step, Enabled;
    if actions != [] {
      StepAttributed(s, actions[0]);
      LeadsAttributed(Step(s, actions[0]), actions[1..], t);
    }
  }

  /** In every run, each success and each giving up is of the endpoint its chain was
      started for, and every chain was started once. */
  lemma OutcomesAreOfTheirChain(actions: seq<Action>, t: State)
    requires Leads(START, actions, t)
    ensures forall k :: 0 <= k < |t.log| && IsOutcome(t.log[k]) ==> StartedFor(t.log, t.log[k].chain, t.log[k].endpoint)
    ensures forall j, k :: 0 <= j < k < |t.log| && t.log[j].Started? && t.log[k].Started? ==>
              t.log[j].chain != t.log[k].chain
  {
    LeadsAttributed(START, actions, t);
    hide StartedFor;
  }
}
