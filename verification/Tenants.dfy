// What the composed keys mean for tenants and assets.
module Tenants {
  import opened Wrappers
  import opened State
  import opened Operator

  ghost predicate PlainTenants(w: World) {
    forall i :: 0 <= i < |w.processes| ==> ':' !in w.processes[i].request.observation.tenant
  }

  // The claim was made for this tenant and asset.
  ghost predicate ClaimedFor(w: World, c: ClaimEntry, o: Observation) {
    c in w.claims && c.owner < |w.processes|
    && w.processes[c.owner].request.observation.tenant == o.tenant && w.processes[c.owner].request.observation.asset == o.asset
  }

  lemma KeyIsOwn(w: World, c: ClaimEntry, o: Observation)
    requires ClaimsOwned(w) && PlainTenants(w) && ':' !in o.tenant && c in w.claims
    ensures c.key == SequenceKey(o) <==> ClaimedFor(w, c, o)
  {
    var p := w.processes[c.owner].request.observation;
    hide Compose;
    if SequenceKey(p) == SequenceKey(o) { ComposeInjective(p.tenant, p.asset, o.tenant, o.asset); }
  }

  // Where no tenant holds a separator, a claim succeeds exactly when its sequence is above
  // every one claimed for the same tenant and asset.
  lemma TenantClaimIff(events: seq<Event>, o: Observation)
    requires PlainTenants(History(events)) && ':' !in o.tenant
    ensures Claim(History(events).store, o.tenant, o.asset, o.sequence).Some? <==>
      forall c :: ClaimedFor(History(events), c, o) ==> c.sequence < o.sequence
  {
    var w := History(events);
    ClaimIff(events, o);
    HistoryKeeps(events);
    hide History, Counting, HoldersClaimed, LedgerOwned, OneEntryEach, RecordsWritten, RepliesTrue, ClaimsOwned, PlainTenants;
    hide SequenceKey, Claim;
    forall c | c in w.claims ensures c.key == SequenceKey(o) <==> ClaimedFor(w, c, o) { KeyIsOwn(w, c, o); }
  }

  function HandledEvents(i: nat, q: Request): seq<Event> { [Arrive(q)] + [Run(i)] + [Run(i)] + [Run(i)] + [Run(i)] }

  lemma OneByOne(events: seq<Event>, a: Event, r: Event)
    ensures events + ([a] + [r] + [r] + [r] + [r]) == events + [a] + [r] + [r] + [r] + [r]
  {
  }

  lemma FourMore(events: seq<Event>, r: Event)
    ensures History(events + [r] + [r] + [r] + [r]) == Apply(Apply(Apply(Apply(History(events), r), r), r), r)
  {
    hide History, Apply;
    Extend(events, r);
    Extend(events + [r], r);
    Extend(events + [r] + [r], r);
    Extend(events + [r] + [r] + [r], r);
  }

  lemma HandledIsHistory(events: seq<Event>, q: Request)
    ensures History(events + HandledEvents(|History(events).processes|, q)) == Handled(History(events), q)
  {
    hide History, Apply;
    var i := |History(events).processes|;
    OneByOne(events, Arrive(q), Run(i));
    Extend(events, Arrive(q));
    FourMore(events + [Arrive(q)], Run(i));
  }

  lemma ClaimsOfHandled(w: World, q: Request)
    requires q.key.None? && q.authentic && Taken(w, q).Some?
    ensures var v := Handled(w, q);
            v.claims == w.claims + [ClaimEntry(|w.processes|, SequenceKey(q.observation), q.observation.sequence)]
            && |v.processes| == |w.processes| + 1 && v.store == Taken(w, q).value
  {
    hide Compose;
  }

  // Two assets with one composed key share a counter: after a request for the one is accepted,
  // the first request ever made for the other is refused as a replay unless its sequence is higher.
  lemma SharedCounterRefuses(p: Request, q: Request)
    requires p.key.None? && q.key.None? && p.authentic && q.authentic
    requires SequenceKey(p.observation) == SequenceKey(q.observation) && q.observation.sequence <= p.observation.sequence
    requires p.observation.tenant != q.observation.tenant || p.observation.asset != q.observation.asset
    ensures exists events :: var w := History(events);
      ReplyTo(w, 0) == Some(Accepted) && |w.processes| == 1
      && (forall c :: !ClaimedFor(w, c, q.observation))
      && ReplyTo(Handled(w, q), 1) == Some(ReplayRejected) && Handled(w, q).ledger == w.ledger
  {
    var events := HandledEvents(0, p);
    assert History([]) == Initial() && [] + events == events;
    HandledIsHistory([], p);
    FirstIsTaken(p);
    ClaimsOfHandled(Initial(), p);
    var w := History(events);
    AcceptsFirst(p);
    assert w.processes == [Process(p, Answered(Accepted))] by { OneProcess(p); }
    SecondRefused(w, p, q);
    hide History, Handled, HandledEvents, SequenceKey;
    assert forall c :: !ClaimedFor(w, c, q.observation);
  }

  lemma FirstIsTaken(p: Request)
    ensures Taken(Initial(), p).Some? && |Initial().processes| == 0
  {
  }

  lemma AcceptsFirst(p: Request)
    requires p.key.None? && p.authentic
    ensures ReplyTo(Handled(Initial(), p), 0) == Some(Accepted)
  {
    FirstIsTaken(p);
    hide Handled, Compose, ReplyTo;
    HandledLate(Initial(), p);
  }

  lemma OneProcess(p: Request)
    requires p.key.None? && p.authentic
    ensures Handled(Initial(), p).processes == [Process(p, Answered(Accepted))]
  {
    hide Compose;
  }

  lemma SecondRefused(w: World, p: Request, q: Request)
    requires Taken(Initial(), p).Some? && w.store == Taken(Initial(), p).value && |w.processes| == 1 && q.key.None? && q.authentic
    requires SequenceKey(p.observation) == SequenceKey(q.observation) && q.observation.sequence <= p.observation.sequence
    ensures ReplyTo(Handled(w, q), 1) == Some(ReplayRejected) && Handled(w, q).ledger == w.ledger
  {
    assert Taken(w, q).None?;
    hide Handled, ReplyTo, Compose, Claim;
    HandledEarly(w, q);
  }
}
