/** Delivering events to webhook endpoints: chains of a send and its retries, and
    the circuit breaker that skips an endpoint which keeps failing. */
module Webhooks {
  type EndpointId = nat
  type ChainId = nat

  const MUTE_AFTER_FAILURES := 3
  const MUTE_COOLDOWN_MS := 5 * 60_000

  /** The wait after each failed send; a send beyond them is the last. */
  const RETRY_DELAYS_MS: seq<nat> := [2_000, 8_000, 30_000]

  datatype Endpoint = Endpoint(id: EndpointId, events: seq<string>) {
    predicate Subscribed(name: string) { events == [] || name in events }
  }

  datatype Health = Health(failures: nat, mutedUntil: nat)

  /** A chain in flight: its latest send is out, or its retry is due. */
  datatype Phase = Out | Due(at: nat)
  datatype Chain = Chain(endpoint: EndpointId, tryIdx: nat, phase: Phase)

  /** What a receiver could have observed, oldest first. */
  datatype Event =
    | Started(chain: ChainId, endpoint: EndpointId, at: nat)
    | Sent(chain: ChainId)
    | Delivered(chain: ChainId, endpoint: EndpointId)
    | Exhausted(chain: ChainId, endpoint: EndpointId, at: nat)

  datatype State = State(now: nat, health: map<EndpointId, Health>, chains: map<ChainId, Chain>, next: ChainId,
                         log: seq<Event>)

  datatype Action =
    | Deliver(name: string, candidates: seq<Endpoint>, at: nat)
    | Accepted(chain: ChainId, at: nat)
    | Rejected(chain: ChainId, at: nat)
    | Retry(chain: ChainId, at: nat)

  predicate Enabled(s: State, a: Action) {
    s.now <= a.at &&
    match a
    case Deliver(_, _, _) => true
    case Accepted(c, _) => c in s.chains && s.chains[c].phase == Out
    case Rejected(c, _) => c in s.chains && s.chains[c].phase == Out
    case Retry(c, at) => c in s.chains && s.chains[c].phase.Due? && s.chains[c].phase.at <= at
  }

  predicate Muted(s: State, e: EndpointId) { e in s.health && s.health[e].mutedUntil > s.now }

  function StartChain(s: State, e: EndpointId): State {
    s.(chains := s.chains[s.next := Chain(e, 0, Out)], next := s.next + 1,
       log := s.log + [Started(s.next, e, s.now), Sent(s.next)])
  }

  /** Fans one event out over the candidates, last one last. */
  function FanOut(s: State, name: string, candidates: seq<Endpoint>): (t: State)
    ensures t.now == s.now
    decreases |candidates|
  {
    if candidates == [] then s
    else
      var before := FanOut(s, name, candidates[..|candidates| - 1]);
      var e := candidates[|candidates| - 1];
      if e.Subscribed(name) && !Muted(before, e.id) then StartChain(before, e.id) else before
  }

  function OnDelivered(s: State, c: ChainId): State
    requires c in s.chains
  {
    var e := s.chains[c].endpoint;
    s.(health := s.health - {e}, chains := s.chains - {c}, log := s.log + [Delivered(c, e)])
  }

  function OneFailureMore(h: map<EndpointId, Health>, e: EndpointId, now: nat): Health {
    var failures := 1 + if e in h then h[e].failures else 0;
    Health(failures, if failures >= MUTE_AFTER_FAILURES then now + MUTE_COOLDOWN_MS
                     else if e in h then h[e].mutedUntil else 0)
  }

  function OnExhausted(s: State, c: ChainId): State
    requires c in s.chains
  {
    var e := s.chains[c].endpoint;
    s.(health := s.health[e := OneFailureMore(s.health, e, s.now)], chains := s.chains - {c},
       log := s.log + [Exhausted(c, e, s.now)])
  }

  function OnRejected(s: State, c: ChainId): State
    requires c in s.chains
  {
    var chain := s.chains[c];
    if chain.tryIdx < |RETRY_DELAYS_MS| then
      s.(chains := s.chains[c := chain.(phase := Due(s.now + RETRY_DELAYS_MS[chain.tryIdx]))])
    else OnExhausted(s, c)
  }

  function Resend(s: State, c: ChainId): State
    requires c in s.chains
  {
    s.(chains := s.chains[c := Chain(s.chains[c].endpoint, s.chains[c].tryIdx + 1, Out)], log := s.log + [Sent(c)])
  }

  function Step(s: State, a: Action): State
    requires Enabled(s, a)
  {
    var s := s.(now := a.at);
    match a
    case Deliver(name, candidates, _) => FanOut(s, name, candidates)
    case Accepted(c, _) => OnDelivered(s, c)
    case Rejected(c, _) => OnRejected(s, c)
    case Retry(c, _) => Resend(s, c)
  }

  const START := State(0, map[], map[], 0, [])

  // ---- What history says -----------------------------------------------------

  /** Exhausted chains of an endpoint since its last success. */
  function Failures(log: seq<Event>, e: EndpointId): nat
    decreases |log|
  {
    if log == [] then 0
    else
      var before := log[..|log| - 1];
      match log[|log| - 1]
      case Delivered(_, d) => if d == e then 0 else Failures(before, e)
      case Exhausted(_, d, _) => if d == e then Failures(before, e) + 1 else Failures(before, e)
      case _ => Failures(before, e)
  }

  function LastExhausted(log: seq<Event>, e: EndpointId): nat
    decreases |log|
  {
    if log == [] then 0
    else match log[|log| - 1]
      case Exhausted(_, d, at) => if d == e then at else LastExhausted(log[..|log| - 1], e)
      case _ => LastExhausted(log[..|log| - 1], e)
  }

  /** The moment up to which history says the endpoint is to be left alone. */
  function MuteTime(log: seq<Event>, e: EndpointId): nat {
    if Failures(log, e) >= MUTE_AFTER_FAILURES then LastExhausted(log, e) + MUTE_COOLDOWN_MS else 0
  }

  function Sends(log: seq<Event>, c: ChainId): nat
    decreases |log|
  {
    if log == [] then 0 else Sends(log[..|log| - 1], c) + if log[|log| - 1] == Sent(c) then 1 else 0
  }

  function Outcomes(log: seq<Event>, c: ChainId): nat
    decreases |log|
  {
    if log == [] then 0
    else
      var last := log[|log| - 1];
      Outcomes(log[..|log| - 1], c) + if (last.Delivered? || last.Exhausted?) && last.chain == c then 1 else 0
  }

  /** The health map is exactly what history says it should be. */
  ghost predicate FollowsHistory(s: State) {
    forall e :: (e in s.health <==> Failures(s.log, e) > 0)
             && (e in s.health ==> s.health[e] == Health(Failures(s.log, e), MuteTime(s.log, e)))
  }

  /** Event `k` did not start a chain before its endpoint's mute time. */
  ghost predicate StartAllowed(log: seq<Event>, k: nat)
    requires k < |log|
  {
    log[k].Started? ==> MuteTime(log[..k], log[k].endpoint) <= log[k].at
  }

  ghost predicate StartsAllowed(log: seq<Event>) {
    forall k :: 0 <= k < |log| ==> StartAllowed(log, k)
  }

  ghost predicate ChainCounted(s: State, c: ChainId) {
    if c in s.chains then
      && c < s.next && s.chains[c].tryIdx <= |RETRY_DELAYS_MS|
      && (s.chains[c].phase.Due? ==> s.chains[c].tryIdx < |RETRY_DELAYS_MS|)
      && Sends(s.log, c) == s.chains[c].tryIdx + 1 && Outcomes(s.log, c) == 0
    else if c < s.next then 1 <= Sends(s.log, c) <= |RETRY_DELAYS_MS| + 1 && Outcomes(s.log, c) == 1
    else Sends(s.log, c) == 0 && Outcomes(s.log, c) == 0
  }

  /** An endpoint is given up on only after every send its chain was entitled to. */
  ghost predicate GivenUpLate(log: seq<Event>) {
    forall k :: 0 <= k < |log| && log[k].Exhausted? ==> Sends(log[..k], log[k].chain) == |RETRY_DELAYS_MS| + 1
  }

  ghost predicate Inv(s: State) {
    && FollowsHistory(s) && StartsAllowed(s.log) && GivenUpLate(s.log)
    && (forall c :: ChainCounted(s, c))
  }

  // ---- Every step keeps it ----------------------------------------------------

  lemma Prefixes(log: seq<Event>, e: Event)
    ensures (log + [e])[..|log + [e]| - 1] == log
    ensures forall k :: 0 <= k <= |log| ==> (log + [e])[..k] == log[..k]
  {
  }

  /** One event more: what history then says of every endpoint and chain. */
  lemma OneEventMore(log: seq<Event>, e: Event)
    ensures forall p :: Failures(log + [e], p) ==
              match e
              case Delivered(_, d) => if d == p then 0 else Failures(log, p)
              case Exhausted(_, d, _) => if d == p then Failures(log, p) + 1 else Failures(log, p)
              case _ => Failures(log, p)
    ensures forall p :: LastExhausted(log + [e], p) ==
              if e.Exhausted? && e.endpoint == p then e.at else LastExhausted(log, p)
    ensures forall c :: Sends(log + [e], c) == Sends(log, c) + if e == Sent(c) then 1 else 0
    ensures forall c :: Outcomes(log + [e], c) ==
              Outcomes(log, c) + if (e.Delivered? || e.Exhausted?) && e.chain == c then 1 else 0
  {
  }

  lemma LogStillFine(log: seq<Event>, e: Event)
    requires StartsAllowed(log) && GivenUpLate(log)
    requires e.Started? ==> MuteTime(log, e.endpoint) <= e.at
    requires e.Exhausted? ==> Sends(log, e.chain) == |RETRY_DELAYS_MS| + 1
    ensures StartsAllowed(log + [e]) && GivenUpLate(log + [e])
  {
    hide MuteTime, Sends;
    Prefixes(log, e);
    assert log[..|log|] == log;
    forall k | 0 <= k < |log + [e]| ensures StartAllowed(log + [e], k) {
      if k < |log| {
        assert StartAllowed(log, k);
      }
    }
  }

  lemma StartChainKeeps(s: State, e: EndpointId)
    requires Inv(s) && !Muted(s, e)
    ensures Inv(StartChain(s, e)) && StartChain(s, e).now == s.now && StartChain(s, e).health == s.health
  {
    var started, sent := Started(s.next, e, s.now), Sent(s.next);
    var t := StartChain(s, e);
    var mid := s.log + [started];
    assert t.log == mid + [sent];
    assert MuteTime(s.log, e) <= s.now;
    OneEventMore(s.log, started);
    OneEventMore(mid, sent);
    LogStillFine(s.log, started);
    LogStillFine(mid, sent);
    hide StartsAllowed, GivenUpLate, Failures, LastExhausted, Sends, Outcomes;
    assert FollowsHistory(t);
    hide FollowsHistory;
    forall c ensures ChainCounted(t, c) {
      assert ChainCounted(s, c);
    }
  }

  lemma {:induction false} FanOutKeeps(s: State, name: string, candidates: seq<Endpoint>)
    requires Inv(s)
    ensures Inv(FanOut(s, name, candidates))
    ensures FanOut(s, name, candidates).now == s.now && FanOut(s, name, candidates).health == s.health
    decreases |candidates|
  {
    hide Inv;
    if candidates != [] {
      var front := candidates[..|candidates| - 1];
      FanOutKeeps(s, name, front);
      var before := FanOut(s, name, front);
      var e := candidates[|candidates| - 1];
      if e.Subscribed(name) && !Muted(before, e.id) {
        StartChainKeeps(before, e.id);
      }
    }
  }

  lemma TickKeeps(s: State, at: nat)
    requires Inv(s)
    ensures Inv(s.(now := at))
  {
    hide StartsAllowed, GivenUpLate;
    var t := s.(now := at);
    assert FollowsHistory(t);
    hide FollowsHistory;
    forall c ensures ChainCounted(t, c) {
      assert ChainCounted(s, c);
    }
  }

  lemma OnDeliveredKeeps(s: State, c: ChainId)
    requires Inv(s) && c in s.chains
    ensures Inv(OnDelivered(s, c))
  {
    var e := Delivered(c, s.chains[c].endpoint);
    var t := OnDelivered(s, c);
    OneEventMore(s.log, e);
    LogStillFine(s.log, e);
    hide StartsAllowed, GivenUpLate, Failures, LastExhausted, Sends, Outcomes;
    assert FollowsHistory(t);
    hide FollowsHistory;
    forall d ensures ChainCounted(t, d) {
      assert ChainCounted(s, d);
    }
  }

  lemma OnExhaustedKeeps(s: State, c: ChainId)
    requires Inv(s) && c in s.chains && s.chains[c].tryIdx == |RETRY_DELAYS_MS|
    ensures Inv(OnExhausted(s, c))
  {
    var e := Exhausted(c, s.chains[c].endpoint, s.now);
    var t := OnExhausted(s, c);
    assert ChainCounted(s, c);
    OneEventMore(s.log, e);
    LogStillFine(s.log, e);
    hide StartsAllowed, GivenUpLate, Failures, LastExhausted, Sends, Outcomes;
    assert FollowsHistory(t);
    hide FollowsHistory;
    forall d ensures ChainCounted(t, d) {
      assert ChainCounted(s, d);
    }
  }

  lemma OnRejectedKeeps(s: State, c: ChainId)
    requires Inv(s) && c in s.chains
    ensures Inv(OnRejected(s, c))
  {
    assert ChainCounted(s, c);
    if s.chains[c].tryIdx < |RETRY_DELAYS_MS| {
      var t := OnRejected(s, c);
      assert FollowsHistory(t);
      hide FollowsHistory, StartsAllowed, GivenUpLate;
      forall d ensures ChainCounted(t, d) {
        assert ChainCounted(s, d);
      }
    } else {
      OnExhaustedKeeps(s, c);
    }
  }

  lemma ResendKeeps(s: State, c: ChainId)
    requires Inv(s) && c in s.chains && s.chains[c].phase.Due?
    ensures Inv(Resend(s, c))
  {
    var t := Resend(s, c);
    OneEventMore(s.log, Sent(c));
    LogStillFine(s.log, Sent(c));
    hide StartsAllowed, GivenUpLate, Failures, LastExhausted, Sends, Outcomes;
    assert FollowsHistory(t);
    hide FollowsHistory;
    forall d ensures ChainCounted(t, d) {
      assert ChainCounted(s, d);
      assert ChainCounted(s, c);
    }
  }

  lemma StepKeeps(s: State, a: Action)
    requires Inv(s) && Enabled(s, a)
    ensures Inv(Step(s, a))
  {
    hide Inv, FanOut, OnDelivered, OnRejected, Resend;
    TickKeeps(s, a.at);
    var t := s.(now := a.at);
    match a
    case Deliver(name, candidates, _) => FanOutKeeps(t, name, candidates);
    case Accepted(c, _) => OnDeliveredKeeps(t, c);
    case Rejected(c, _) => OnRejectedKeeps(t, c);
    case Retry(c, _) => ResendKeeps(t, c);
  }

  /** The state after some actions, if each was possible in turn. */
  ghost predicate Leads(s: State, actions: seq<Action>, t: State)
    decreases |actions|
  {
    if actions == [] then s == t
    else Enabled(s, actions[0]) && Leads(Step(s, actions[0]), actions[1..], t)
  }

  lemma {:induction false} LeadsKeeps(s: State, actions: seq<Action>, t: State)
    requires Inv(s) && Leads(s, actions, t)
    ensures Inv(t)
    decreases |actions|
  {
    hide Inv, Step, Enabled;
    if actions != [] {
      StepKeeps(s, actions[0]);
      LeadsKeeps(Step(s, actions[0]), actions[1..], t);
    }
  }

  // ---- What that means --------------------------------------------------------

  /** After any run: an endpoint has an entry exactly when it failed since its last
      success, the entry counts those failures, and it carries a mute time exactly
      when they are three or more, five minutes past the last of them. */
  lemma BreakerFollowsHistory(actions: seq<Action>, t: State, e: EndpointId)
    requires Leads(START, actions, t)
    ensures e in t.health <==> Failures(t.log, e) > 0
    ensures e in t.health ==> t.health[e].failures == Failures(t.log, e)
    ensures var muted := if Failures(t.log, e) >= 3 then LastExhausted(t.log, e) + 300_000 else 0;
            e in t.health ==> t.health[e].mutedUntil == muted
  {
    assert Inv(START);
    LeadsKeeps(START, actions, t);
  }

  /** No chain of any run starts before its endpoint's mute time. */
  lemma NoStartWhileMuted(actions: seq<Action>, t: State, k: nat)
    requires Leads(START, actions, t) && k < |t.log| && t.log[k].Started?
    ensures var before, e := t.log[..k], t.log[k].endpoint;
            Failures(before, e) >= 3 ==> LastExhausted(before, e) + 300_000 <= t.log[k].at
  {
    assert Inv(START);
    LeadsKeeps(START, actions, t);
    assert StartAllowed(t.log, k);
  }

  /** Every chain of any run makes at most four sends and ends in at most one
      outcome; it has one exactly when it is no longer in flight, and it is given
      up on only after its fourth send. */
  lemma ChainsAreBounded(actions: seq<Action>, t: State, c: ChainId)
    requires Leads(START, actions, t) && c < t.next
    ensures 1 <= Sends(t.log, c) <= 4 && Outcomes(t.log, c) <= 1
    ensures c in t.chains <==> Outcomes(t.log, c) == 0
    ensures forall k :: 0 <= k < |t.log| && t.log[k].Exhausted? && t.log[k].chain == c ==> Sends(t.log[..k], c) == 4
  {
    assert Inv(START);
    LeadsKeeps(START, actions, t);
    assert ChainCounted(t, c);
  }

  /** An event reaches a subscribed endpoint exactly when its mute time, by
      history, has passed: an endpoint that comes back is tried again. */
  lemma ReachedIffNotMuted(s: State, name: string, e: Endpoint, at: nat)
    requires Inv(s) && s.now <= at && e.Subscribed(name)
    ensures var t := Step(s, Deliver(name, [e], at));
            if MuteTime(s.log, e.id) <= at then t == StartChain(s.(now := at), e.id) else t == s.(now := at)
  {
    var now := s.(now := at);
    assert [e][..0] == [];
    assert FanOut(now, name, []) == now;
  }

  // ---- One probe per cooldown? ------------------------------------------------

  /** A comment speaks of one probe per cooldown. The breaker learns of a probe only
      from its outcome, so every event between the end of the cooldown and that
      outcome goes through: two events, two probes. */
  lemma SecondProbeGoesThrough(s: State, name: string, e: Endpoint, at: nat, later: nat)
    requires Inv(s) && e.Subscribed(name) && s.now <= at <= later && MuteTime(s.log, e.id) <= at
    ensures var one := Step(s, Deliver(name, [e], at));
            var two := Step(one, Deliver(name, [e], later));
            && s.next !in s.chains && s.next + 1 !in s.chains
            && two.chains == s.chains[s.next := Chain(e.id, 0, Out)][s.next + 1 := Chain(e.id, 0, Out)]
  {
    assert ChainCounted(s, s.next) && ChainCounted(s, s.next + 1);
    ReachedIffNotMuted(s, name, e, at);
    var one := Step(s, Deliver(name, [e], at));
    StepKeeps(s, Deliver(name, [e], at));
    assert MuteTime(one.log, e.id) == MuteTime(s.log, e.id) by {
      var started, sent := Started(s.next, e.id, at), Sent(s.next);
      assert one.log == s.log + [started] + [sent];
      OneEventMore(s.log, started);
      OneEventMore(s.log + [started], sent);
    }
    hide Inv;
    ReachedIffNotMuted(one, name, e, later);
  }

  /** Some chain of the endpoint was given up on in this stretch of history. */
  predicate GaveUp(tail: seq<Event>, e: EndpointId)
    decreases |tail|
  {
    tail != [] && ((tail[|tail| - 1].Exhausted? && tail[|tail| - 1].endpoint == e) || GaveUp(tail[..|tail| - 1], e))
  }

  /** What a stretch of history does to the mute time. */
  lemma {:induction false} StretchMutes(log: seq<Event>, tail: seq<Event>, e: EndpointId)
    ensures GaveUp(tail, e) ==> LastExhausted(log + tail, e) == LastExhausted(tail, e)
    ensures !GaveUp(tail, e) ==>
              LastExhausted(log + tail, e) == LastExhausted(log, e) && Failures(log + tail, e) in {0, Failures(log, e)}
    decreases |tail|
  {
    if tail == [] {
      assert log + tail == log;
    } else {
      var front, last := tail[..|tail| - 1], tail[|tail| - 1];
      StretchMutes(log, front, e);
      assert log + tail == (log + front) + [last] && tail == front + [last];
      OneEventMore(log + front, last);
      OneEventMore(front, last);
    }
  }

  lemma StepAppends(s: State, a: Action)
    requires Enabled(s, a)
    ensures s.log <= Step(s, a).log && Step(s, a).now == a.at
  {
    if a.Deliver? {
      FanOutAppends(s.(now := a.at), a.name, a.candidates);
    }
  }

  lemma {:induction false} FanOutAppends(s: State, name: string, candidates: seq<Endpoint>)
    ensures s.log <= FanOut(s, name, candidates).log
    decreases |candidates|
  {
    if candidates != [] {
      FanOutAppends(s, name, candidates[..|candidates| - 1]);
    }
  }

  lemma {:induction false} LeadsAppends(s: State, actions: seq<Action>, t: State)
    requires Leads(s, actions, t)
    ensures s.log <= t.log && s.now <= t.now
    decreases |actions|
  {
    hide Step;
    if actions != [] {
      StepAppends(s, actions[0]);
      LeadsAppends(Step(s, actions[0]), actions[1..], t);
    }
  }

  /** Once a cooldown is over and an event has gone through, anything may happen:
      retries of that chain, other events, other endpoints. The next event, unless
      it waits out a whole cooldown more, goes through exactly when no chain of the
      endpoint was given up on in between, or a success has since brought its
      failures below three. */
  lemma NextEventIsProbeIff(s: State, name: string, e: Endpoint, at: nat, between: seq<Action>, t: State, later: nat,
                            next: string)
    requires Inv(s) && s.now <= at && e.Subscribed(name) && MuteTime(s.log, e.id) <= at
    requires Leads(Step(s, Deliver(name, [e], at)), between, t) && t.now <= later && e.Subscribed(next)
    ensures s.log <= t.log
    ensures var since := t.log[|s.log|..];
            (GaveUp(since, e.id) ==> later < LastExhausted(since, e.id) + MUTE_COOLDOWN_MS) ==>
              Step(t, Deliver(next, [e], later)) ==
              if !GaveUp(since, e.id) || Failures(t.log, e.id) < 3 then StartChain(t.(now := later), e.id)
              else t.(now := later)
  {
    hide Step, Inv;
    var one := Step(s, Deliver(name, [e], at));
    StepAppends(s, Deliver(name, [e], at));
    StepKeeps(s, Deliver(name, [e], at));
    LeadsKeeps(one, between, t);
    LeadsAppends(one, between, t);
    var since := t.log[|s.log|..];
    assert t.log == s.log + since;
    StretchMutes(s.log, since, e.id);
    ReachedIffNotMuted(t, next, e, later);
  }

  ghost predicate Reachable(s: State) {
    exists actions :: Leads(START, actions, s)
  }

  lemma {:induction false} LeadsOn(s: State, actions: seq<Action>, t: State, a: Action)
    requires Leads(s, actions, t) && Enabled(t, a)
    ensures Leads(s, actions + [a], Step(t, a))
    decreases |actions|
  {
    hide Step, Enabled;
    if actions == [] {
      assert (actions + [a])[1..] == [];
    } else {
      LeadsOn(Step(s, actions[0]), actions[1..], t, a);
      assert (actions + [a])[1..] == actions[1..] + [a];
    }
  }

  lemma StepReachable(s: State, a: Action)
    requires Reachable(s) && Enabled(s, a)
    ensures Reachable(Step(s, a))
  {
    hide Step, Enabled;
    var actions :| Leads(START, actions, s);
    LeadsOn(START, actions, s, a);
  }

  /** A send that fails and is sent again when its retry is due. */
  lemma FailsAgain(s: State, c: ChainId) returns (t: State)
    requires Reachable(s) && c in s.chains && s.chains[c].phase == Out && s.chains[c].tryIdx < 3
    ensures Reachable(t) && t.health == s.health
    ensures t.chains == s.chains[c := Chain(s.chains[c].endpoint, s.chains[c].tryIdx + 1, Out)]
  {
    var rejected := Step(s, Rejected(c, s.now));
    StepReachable(s, Rejected(c, s.now));
    var due := rejected.chains[c].phase.at;
    StepReachable(rejected, Retry(c, due));
    t := Step(rejected, Retry(c, due));
  }

  /** An event for endpoint 0, whose every send fails. */
  lemma GivenUp(s: State) returns (t: State)
    requires Reachable(s) && Inv(s) && s.chains == map[] && (0 in s.health ==> s.health[0].failures < 3)
    ensures Reachable(t) && Inv(t) && t.chains == map[]
    ensures 0 in t.health && t.health[0].failures == 1 + if 0 in s.health then s.health[0].failures else 0
  {
    assert !Muted(s, 0);
    var c := s.next;
    ReachedIffNotMuted(s, "issue.created", Endpoint(0, []), s.now);
    StepReachable(s, Deliver("issue.created", [Endpoint(0, [])], s.now));
    var out := Step(s, Deliver("issue.created", [Endpoint(0, [])], s.now));
    hide Inv;
    var one := FailsAgain(out, c);
    var two := FailsAgain(one, c);
    var three := FailsAgain(two, c);
    StepReachable(three, Rejected(c, three.now));
    t := Step(three, Rejected(c, three.now));
    var actions :| Leads(START, actions, t);
    assert Inv(START) by { NewIsFine(); }
    LeadsKeeps(START, actions, t);
  }

  lemma NewIsFine()
    ensures Inv(START)
  {
  }

  /** So two probes do happen within one cooldown: from a fresh start, three
      events are given up on, the cooldown lapses, and the next two events are
      both sent to the endpoint. */
  lemma TwoProbesInOneCooldown()
    ensures exists s: State, at: nat ::
              && Reachable(s) && s.chains == map[] && Failures(s.log, 0) == 3 && s.now < at
              && MuteTime(s.log, 0) <= at
              && var one := Step(s, Deliver("issue.created", [Endpoint(0, [])], at));
                 Step(one, Deliver("issue.created", [Endpoint(0, [])], at + 1)).chains.Keys == {s.next, s.next + 1}
  {
    var actions: seq<Action> := [];
    assert Leads(START, actions, START);
    NewIsFine();
    var a := GivenUp(START);
    var b := GivenUp(a);
    var s := GivenUp(b);
    var at := s.now + 1 + MuteTime(s.log, 0);
    assert Failures(s.log, 0) == 3;
    SecondProbeGoesThrough(s, "issue.created", Endpoint(0, []), at, at + 1);
  }
}
