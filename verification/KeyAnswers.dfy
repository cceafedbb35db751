/** Answers to key requests over whole runs: who gets them, what they hold and in which order. */
module KeyAnswers {
  import opened Bincode
  import opened Cutting
  import opened Streams
  import opened Assembly
  import opened DeniablePayloads
  import opened TwoHop
  import opened Losses

  /** The bundles one attempt answers key requests of an account's devices with: those asked
      for by what a request of such a device has flushed, if the request succeeds. */
  function AnsweredBy(codec: Codec<DeniablePayload>, s: State, ev: Event, account: string): seq<seq<Byte>> {
    if ev.Request? && ev.sender in s && ev.sender.account == account && Step(codec, s, ev).Some?
       && Flushed(codec, s[ev.sender], ev.totals).Some?
    then BundlesFor(Flushed(codec, s[ev.sender], ev.totals).value, ev.env)
    else []
  }

  /** Those of a run, in the order of its requests. */
  function AnsweredIn(codec: Codec<DeniablePayload>, s: State, events: seq<Event>, account: string): seq<seq<Byte>>
    decreases |events|
  {
    if events == [] then []
    else AnsweredBy(codec, s, events[0], account)
         + AnsweredIn(codec, Attempt(codec, s, events[0]), events[1..], account)
  }

  lemma AttemptResponses(codec: Codec<DeniablePayload>, s: State, ev: Event, d: Address)
    requires codec.RoundTrips() && Inv(codec, s) && Known(s, ev) && Covered(s, ev) && d in s
    ensures var s' := Attempt(codec, s, ev);
      && d in s'
      && Responses(s'[d].routed) == Responses(s[d].routed) + AnsweredBy(codec, s, ev, d.account)
  {
    match ev
    case Submit(a, p) => NothingRouted(s[d].routed);
    case Request(a, totals, env) => RequestResponses(codec, s, a, totals, env, d);
    case Deliver(r, total) =>
      DeliverKeeps(codec, s, r, total);
      NothingRouted(s[d].routed);
  }

  lemma NothingRouted(ps: seq<DeniablePayload>)
    ensures Responses(ps) + [] == Responses(ps)
  {
  }

  lemma RequestResponses(codec: Codec<DeniablePayload>, s: State, a: Address, totals: seq<Budget>, env: Surroundings,
                         d: Address)
    requires codec.RoundTrips() && Inv(codec, s) && a in s && d in s && Covered(s, Request(a, totals, env))
    ensures var ev := Request(a, totals, env); var s' := Attempt(codec, s, ev);
      && d in s'
      && Responses(s'[d].routed) == Responses(s[d].routed) + AnsweredBy(codec, s, ev, d.account)
  {
    var ps := RequestKeeps(codec, s, a, totals, env);
    var routes := RouteAll(a, ps, env, Accounts(s));
    if routes.Some? {
      ResponsesRouted(a, ps, env, Accounts(s), d.account);
      SpreadRouted(codec, s, a, totals, ps, routes.value, d);
    } else {
      NothingRouted(s[d].routed);
    }
  }

  lemma SpreadRouted(codec: Codec<DeniablePayload>, s: State, a: Address, totals: seq<Budget>, ps: seq<DeniablePayload>,
                     routes: seq<Routed>, d: Address)
    requires a in s && d in s
    ensures var s' := Spread(codec, s[a := Passed(Sent(s[a], totals, ps), ps)], routes);
      d in s' && Responses(s'[d].routed) == Responses(s[d].routed) + Responses(ForAccount(routes, d.account))
  {
    ResponsesConcat(s[d].routed, ForAccount(routes, d.account));
  }

  lemma {:induction false} RunOnResponses(codec: Codec<DeniablePayload>, s: State, events: seq<Event>, d: Address)
    requires codec.RoundTrips() && Inv(codec, s) && CoveredRun(codec, s, events) && d in s
    ensures var s' := RunOn(codec, s, events);
      && d in s'
      && Responses(s'[d].routed) == Responses(s[d].routed) + AnsweredIn(codec, s, events, d.account)
    decreases |events|
  {
    if events == [] {
      NothingRouted(s[d].routed);
    } else {
      var s1 := Attempt(codec, s, events[0]);
      AttemptKeeps(codec, s, events[0]);
      AttemptResponses(codec, s, events[0], d);
      RunOnResponses(codec, s1, events[1..], d);
      Later(Responses(s[d].routed), AnsweredBy(codec, s, events[0], d.account),
        AnsweredIn(codec, s1, events[1..], d.account));
    }
  }

  lemma Later(x: seq<seq<Byte>>, y: seq<seq<Byte>>, z: seq<seq<Byte>>)
    ensures x + y + z == x + (y + z)
  {
  }

  lemma ResponsesPrefix(x: seq<DeniablePayload>, y: seq<DeniablePayload>)
    requires x <= y
    ensures Responses(x) <= Responses(y)
  {
    assert y == x + y[|x|..];
    ResponsesConcat(x, y[|x|..]);
  }

  /** Attribution of key responses. Over every run, failures included: the bundles a device
      has received are, in order, a prefix of those that the requests of its own account's
      devices have been answered with, and all of them once its queue is empty. */
  lemma KeyAnswersInOrder(codec: Codec<DeniablePayload>, s: State, events: seq<Event>, d: Address)
    requires codec.RoundTrips() && Initial(s) && CoveredRun(codec, s, events) && d in s
    ensures var s' := RunOn(codec, s, events);
      && d in s'
      && Responses(s'[d].received) <= AnsweredIn(codec, s, events, d.account)
      && (s'[d].queue == [] ==> Responses(s'[d].received) == AnsweredIn(codec, s, events, d.account))
  {
    InitialParts(codec, s);
    RunOnKeeps(codec, s, events);
    RunOnResponses(codec, s, events, d);
    var m := RunOn(codec, s, events)[d];
    assert NodeInv(codec, m);
    EncodedPrefix(codec, m.received, Owed(m.inbox, m.queue), m.routed);
    ResponsesPrefix(m.received, m.routed);
    assert [] + AnsweredIn(codec, s, events, d.account) == AnsweredIn(codec, s, events, d.account);
  }

  // ---- An account with one device ----

  ghost predicate SoleDevice(s: State, a: Address) {
    forall b :: b in s && b.account == a.account ==> b == a
  }

  /** All requests of a device find the same keys. */
  ghost predicate SameKeys(events: seq<Event>, a: Address, env: Surroundings) {
    forall i :: 0 <= i < |events| && events[i].Request? && events[i].sender == a ==>
      events[i].env.bundles == env.bundles && events[i].env.device == env.device
  }

  lemma {:induction false} BundlesOnly(ps: seq<DeniablePayload>, env: Surroundings, env': Surroundings)
    requires env.bundles == env'.bundles && env.device == env'.device
    ensures BundlesFor(ps, env) == BundlesFor(ps, env')
  {
    if ps != [] { BundlesOnly(ps[1..], env, env'); }
  }

  lemma AttemptSole(codec: Codec<DeniablePayload>, s: State, ev: Event, a: Address, env: Surroundings)
    requires codec.RoundTrips() && Inv(codec, s) && Known(s, ev) && Covered(s, ev) && a in s && SoleDevice(s, a)
    requires SameKeys([ev], a, env)
    ensures var s' := Attempt(codec, s, ev);
      && a in s'
      && BundlesFor(s'[a].passed, env) == BundlesFor(s[a].passed, env) + AnsweredBy(codec, s, ev, a.account)
  {
    AttemptRecords(codec, s, ev, a);
    assert [ev][0] == ev;
    if ev.Request? && ev.sender == a && Step(codec, s, ev).Some? {
      var ps := Flushed(codec, s[a], ev.totals).value;
      BundlesConcat(s[a].passed, ps, env);
      BundlesOnly(ps, env, ev.env);
    } else {
      assert s[a].passed + [] == s[a].passed;
    }
  }

  lemma {:induction false} RunOnSole(codec: Codec<DeniablePayload>, s: State, events: seq<Event>, a: Address,
                                     env: Surroundings)
    requires codec.RoundTrips() && Inv(codec, s) && CoveredRun(codec, s, events) && a in s && SoleDevice(s, a)
    requires SameKeys(events, a, env)
    ensures var s' := RunOn(codec, s, events);
      && a in s'
      && BundlesFor(s'[a].passed, env) == BundlesFor(s[a].passed, env) + AnsweredIn(codec, s, events, a.account)
    decreases |events|
  {
    if events == [] {
      assert BundlesFor(s[a].passed, env) + [] == BundlesFor(s[a].passed, env);
    } else {
      var s1 := Attempt(codec, s, events[0]);
      AttemptKeeps(codec, s, events[0]);
      assert SameKeys([events[0]], a, env) && SameKeys(events[1..], a, env);
      AttemptSole(codec, s, events[0], a, env);
      RunOnSole(codec, s1, events[1..], a, env);
      Later(BundlesFor(s[a].passed, env), AnsweredBy(codec, s, events[0], a.account),
        AnsweredIn(codec, s1, events[1..], a.account));
    }
  }

  /** The only device of an account gets, over every run without a failed request and while the
      keys stay the same, a prefix of the bundles that its submitted key requests ask for. */
  lemma SoleDeviceAnswers(codec: Codec<DeniablePayload>, s: State, events: seq<Event>, a: Address, env: Surroundings)
    requires codec.RoundTrips() && Initial(s) && CoveredRun(codec, s, events) && Run(codec, s, events).Some?
    requires a in s && SoleDevice(s, a) && SameKeys(events, a, env)
    ensures var s' := RunOn(codec, s, events);
      && a in s'
      && Responses(s'[a].received) <= BundlesFor(SubmittedIn(events, a), env)
  {
    InitialParts(codec, s);
    KeyAnswersInOrder(codec, s, events, a);
    RunOnSole(codec, s, events, a, env);
    assert [] + AnsweredIn(codec, s, events, a.account) == AnsweredIn(codec, s, events, a.account);
    PassedPrefix(codec, s, events, a);
    BundlesPrefix(RunOn(codec, s, events)[a].passed, SubmittedIn(events, a), env);
  }

  /** Without a failure, what was passed on is a prefix of what was submitted. */
  lemma PassedPrefix(codec: Codec<DeniablePayload>, s: State, events: seq<Event>, a: Address)
    requires codec.RoundTrips() && Initial(s) && CoveredRun(codec, s, events) && Run(codec, s, events).Some? && a in s
    ensures var s' := RunOn(codec, s, events); a in s' && s'[a].passed <= SubmittedIn(events, a)
  {
    InitialParts(codec, s);
    RunOnKeeps(codec, s, events);
    LosslessExactly(codec, s, events);
    RunOnSubmitted(codec, s, events, a);
    EmittedIsPrefix(codec, RunOn(codec, s, events), a);
    assert [] + SubmittedIn(events, a) == SubmittedIn(events, a);
    assert RunOn(codec, s, events)[a].passed == RunOn(codec, s, events)[a].emitted;
  }

  lemma BundlesPrefix(x: seq<DeniablePayload>, y: seq<DeniablePayload>, env: Surroundings)
    requires x <= y
    ensures BundlesFor(x, env) <= BundlesFor(y, env)
  {
    assert y == x + y[|x|..];
    BundlesConcat(x, y[|x|..], env);
  }
}
