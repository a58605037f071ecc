// The sliding-window rate limiter, with its clock readings as arguments.
module Limiter {
  import opened Wrappers

  datatype Call = Call(key: string, limit: int, window: int, now: real)

  // accepted keeps, for every key held, the times of all its acceptances since the key was created.
  datatype State = State(events: map<string, seq<real>>, order: seq<string>, accepted: map<string, seq<real>>)

  // Taking the first element of an empty deque.
  datatype Error = IndexError

  function Initial(): State { State(map[], [], map[]) }

  // Python's int(): truncation toward zero.
  function Truncate(x: real): int { if x >= 0.0 then x.Floor else -((-x).Floor) }

  function Trim(events: seq<real>, cutoff: real): seq<real> {
    if events != [] && events[0] <= cutoff then Trim(events[1..], cutoff) else events
  }

  function Cutoff(c: Call): real { c.now - c.window as real }

  function Retry(first: real, c: Call): int {
    var wait := Truncate(first + c.window as real - c.now) + 1;
    if wait > 1 then wait else 1
  }

  // A new key pushes out the key at the front of the access order once max keys are held.
  predicate MustEvict(s: State, key: string, max: int) { key !in s.events && |s.events| >= max }

  function Evict(s: State, key: string, max: int): Result<State, Error> {
    if !MustEvict(s, key, max) then Ok(s)
    else if s.order == [] then Err(IndexError)
    else Ok(State(s.events - {s.order[0]}, s.order[1..], s.accepted - {s.order[0]}))
  }

  // The events of the key, which is created when it is missing.
  function EventsOf(s: State, key: string): seq<real> { if key in s.events then s.events[key] else [] }

  function AcceptedOf(s: State, key: string): seq<real> { if key in s.accepted then s.accepted[key] else [] }

  function Admit(s: State, c: Call): (State, Result<Option<int>, Error>) {
    var live := Trim(EventsOf(s, c.key), Cutoff(c));
    var held := s.(events := s.events[c.key := live], accepted := s.accepted[c.key := AcceptedOf(s, c.key)]);
    if |live| >= c.limit then
      (held, if live == [] then Err(IndexError) else Ok(Some(Retry(live[0], c))))
    else
      (State(s.events[c.key := live + [c.now]], s.order + [c.key], s.accepted[c.key := AcceptedOf(s, c.key) + [c.now]]), Ok(None))
  }

  // Ok(None) admits the call, Ok(Some(n)) asks to retry after n seconds.
  function Decide(s: State, c: Call, max: int): (State, Result<Option<int>, Error>) {
    match Evict(s, c.key, max)
    case Err(e) => (s, Err(e))
    case Ok(t) => Admit(t, c)
  }

  function History(calls: seq<Call>, max: int): State {
    if calls == [] then Initial() else Decide(History(calls[..|calls| - 1], max), calls[|calls| - 1], max).0
  }

  class FixedWindowLimiter {
    const maxKeys: int
    var events: map<string, seq<real>>
    var accessOrder: seq<string>
    ghost var accepted: map<string, seq<real>>

    ghost function Contents(): State
      reads this
    {
      State(events, accessOrder, accepted)
    }

    constructor (max: int)
      ensures maxKeys == max && Contents() == Initial()
    {
      maxKeys, events, accessOrder, accepted := max, map[], [], map[];
    }

    method MakeRoom(key: string) returns (ok: bool)
      modifies this
      ensures ok <==> Evict(old(Contents()), key, maxKeys).Ok?
      ensures Contents() == if ok then Evict(old(Contents()), key, maxKeys).value else old(Contents())
    {
      if key !in events && |events| >= maxKeys {
        if |accessOrder| == 0 { return false; }
        var evicted := accessOrder[0];
        accessOrder := accessOrder[1..];
        events := events - {evicted};
        accepted := accepted - {evicted};
      }
      ok := true;
    }

    static method DropExpired(events: seq<real>, cutoff: real) returns (live: seq<real>)
      ensures live == Trim(events, cutoff)
    {
      live := events;
      while |live| > 0 && live[0] <= cutoff
        invariant Trim(live, cutoff) == Trim(events, cutoff)
      {
        live := live[1..];
      }
    }

    method Check(key: string, limit: int, window: int, now: real) returns (r: Result<Option<int>, Error>)
      modifies this
      ensures Contents() == Decide(old(Contents()), Call(key, limit, window, now), maxKeys).0
      ensures r == Decide(old(Contents()), Call(key, limit, window, now), maxKeys).1
    {
      hide Trim, Truncate, MustEvict;
      var ok := MakeRoom(key);
      if !ok { return Err(IndexError); }
      ghost var room := Contents();
      var cutoff := now - window as real;
      var live := if key in events then events[key] else [];
      live := DropExpired(live, cutoff);
      accepted := accepted[key := AcceptedOf(room, key)];
      if |live| >= limit {
        events := events[key := live];
        if |live| == 0 { return Err(IndexError); }
        var wait := Truncate(live[0] + window as real - now) + 1;
        return Ok(Some(if wait > 1 then wait else 1));
      }
      events := events[key := live + [now]];
      accessOrder := accessOrder + [key];
      accepted := accepted[key := AcceptedOf(room, key) + [now]];
      r := Ok(None);
    }
  }

  // ---------- Window safety ----------

  predicate Monotone(calls: seq<Call>) {
    forall i, j :: 0 <= i < j < |calls| ==> calls[i].now <= calls[j].now
  }

  predicate PositiveLimits(calls: seq<Call>) { forall c :: c in calls ==> c.limit >= 1 }

  predicate Policy(calls: seq<Call>, key: string, limit: int, window: int) {
    forall c :: c in calls && c.key == key ==> c.limit == limit && c.window == window
  }

  ghost predicate Sorted(s: seq<real>) { forall i, j :: 0 <= i < j < |s| ==> s[i] <= s[j] }

  // limit acceptances later, a whole window has passed.
  ghost predicate Spaced(s: seq<real>, limit: nat, window: real) {
    forall i, j :: 0 <= i && j == i + limit && j < |s| ==> s[i] + window <= s[j]
  }

  // The live events are the newest acceptances; every older one has left the window at time now.
  ghost predicate Tracks(accepted: seq<real>, events: seq<real>, window: real, now: real) {
    && |events| <= |accepted| && events == accepted[|accepted| - |events|..]
    && forall i :: 0 <= i < |accepted| - |events| ==> accepted[i] <= now - window
  }

  ghost predicate SafeTimes(accepted: seq<real>, events: seq<real>, limit: nat, window: real, now: real) {
    && Sorted(accepted) && Spaced(accepted, limit, window) && Tracks(accepted, events, window, now)
    && |events| <= limit && forall t :: t in accepted ==> t <= now
  }

  ghost predicate Safe(s: State, key: string, limit: nat, window: real, now: real) {
    key in s.events ==> key in s.accepted && SafeTimes(s.accepted[key], s.events[key], limit, window, now)
  }

  lemma {:induction false} TrimDrops(events: seq<real>, cutoff: real)
    ensures |Trim(events, cutoff)| <= |events| && Trim(events, cutoff) == events[|events| - |Trim(events, cutoff)|..]
    ensures forall i :: 0 <= i < |events| - |Trim(events, cutoff)| ==> events[i] <= cutoff
    ensures Trim(events, cutoff) != [] ==> Trim(events, cutoff)[0] > cutoff
  {
    if events != [] && events[0] <= cutoff {
      TrimDrops(events[1..], cutoff);
      forall i | 0 <= i < |events| - |Trim(events, cutoff)| ensures events[i] <= cutoff {
        if i > 0 { assert events[i] == events[1..][i - 1]; }
      }
    }
  }

  lemma LaterTimes(accepted: seq<real>, events: seq<real>, limit: nat, window: real, before: real, now: real)
    requires SafeTimes(accepted, events, limit, window, before) && before <= now
    ensures SafeTimes(accepted, events, limit, window, now)
  {
    hide Sorted, Spaced;
  }

  lemma TrimTimes(accepted: seq<real>, events: seq<real>, limit: nat, window: real, now: real)
    requires SafeTimes(accepted, events, limit, window, now)
    ensures SafeTimes(accepted, Trim(events, now - window), limit, window, now)
  {
    TrimDrops(events, now - window);
    var live := Trim(events, now - window);
    hide Trim, Sorted, Spaced;
    forall i | 0 <= i < |accepted| - |live| ensures accepted[i] <= now - window {
      if i >= |accepted| - |events| { assert accepted[i] == events[i - (|accepted| - |events|)]; }
    }
  }

  lemma AcceptTimes(accepted: seq<real>, live: seq<real>, limit: nat, window: real, now: real)
    requires SafeTimes(accepted, live, limit, window, now) && |live| < limit
    ensures SafeTimes(accepted + [now], live + [now], limit, window, now)
  {
    assert forall i :: 0 <= i < |accepted| ==> accepted[i] in accepted;
  }

  lemma NoTimes(limit: nat, window: real, now: real)
    ensures SafeTimes([], [], limit, window, now)
  {
  }

  // The order of accepted keys always holds every key that has events.
  ghost predicate Known(s: State) { s.accepted.Keys == s.events.Keys && forall k :: k in s.events ==> k in s.order }

  lemma AdmitKnown(s: State, c: Call)
    requires Known(s) && c.limit >= 1
    requires c.key !in s.events ==> Trim([], Cutoff(c)) == []
    ensures Known(Admit(s, c).0) && Admit(s, c).1.Ok?
  {
    hide Trim, Retry;
  }

  lemma EvictKnown(s: State, key: string, max: int)
    requires Known(s) && max >= 1
    ensures Evict(s, key, max).Ok? && Known(Evict(s, key, max).value)
  {
    if MustEvict(s, key, max) {
      assert s.events != map[];
      var k :| k in s.events;
      assert k in s.order;
      forall k | k in s.events - {s.order[0]} ensures k in s.order[1..] {
        assert k in s.order && k != s.order[0];
      }
    }
  }

  // With room for one key and positive limits no check meets an empty deque.
  lemma {:induction false} NoEmptyPop(calls: seq<Call>, max: int)
    requires PositiveLimits(calls) && max >= 1
    ensures Known(History(calls, max))
    ensures calls != [] ==> Decide(History(calls[..|calls| - 1], max), calls[|calls| - 1], max).1.Ok?
  {
    if calls != [] {
      var rest, c := calls[..|calls| - 1], calls[|calls| - 1];
      assert PositiveLimits(rest) && c in calls;
      NoEmptyPop(rest, max);
      hide Known, Evict, Admit;
      EvictKnown(History(rest, max), c.key, max);
      AdmitKnown(Evict(History(rest, max), c.key, max).value, c);
    }
  }

  lemma LaterSafe(s: State, key: string, limit: nat, window: real, before: real, now: real)
    requires Safe(s, key, limit, window, before) && before <= now
    ensures Safe(s, key, limit, window, now)
  {
    hide SafeTimes;
    if key in s.events { LaterTimes(s.accepted[key], s.events[key], limit, window, before, now); }
  }

  lemma EvictSafe(s: State, key: string, max: int, k: string, limit: nat, window: real, now: real)
    requires Safe(s, k, limit, window, now) && Evict(s, key, max).Ok?
    ensures Safe(Evict(s, key, max).value, k, limit, window, now)
  {
    hide SafeTimes;
  }

  lemma AdmitSafe(s: State, c: Call, limit: nat, window: real)
    requires Safe(s, c.key, limit, window, c.now) && Known(s)
    requires c.limit == limit >= 1 && window == c.window as real
    ensures Safe(Admit(s, c).0, c.key, limit, window, c.now)
  {
    hide SafeTimes, Trim, Retry;
    var accepted, events := AcceptedOf(s, c.key), EventsOf(s, c.key);
    var live := Trim(events, Cutoff(c));
    NoTimes(limit, window, c.now);
    TrimTimes(accepted, events, limit, window, c.now);
    if |live| < limit { AcceptTimes(accepted, live, limit, window, c.now); }
  }

  lemma OtherSafe(s: State, c: Call, key: string, limit: nat, window: real)
    requires Safe(s, key, limit, window, c.now) && key != c.key
    ensures Safe(Admit(s, c).0, key, limit, window, c.now)
  {
    hide SafeTimes, Trim, Retry;
  }

  function LastTime(calls: seq<Call>): real { if calls == [] then 0.0 else calls[|calls| - 1].now }

  // While a key is held, its acceptances stay a window apart from the limit-th one before.
  lemma {:induction false} HistorySafe(calls: seq<Call>, max: int, key: string, limit: nat, window: int)
    requires Monotone(calls) && PositiveLimits(calls) && Policy(calls, key, limit, window) && limit >= 1 && max >= 1
    ensures Safe(History(calls, max), key, limit, window as real, LastTime(calls))
  {
    if calls != [] {
      var rest, c := calls[..|calls| - 1], calls[|calls| - 1];
      assert c in calls && PositiveLimits(rest) && Policy(rest, key, limit, window) && Monotone(rest);
      assert rest != [] ==> LastTime(rest) <= c.now;
      HistorySafe(rest, max, key, limit, window);
      NoEmptyPop(rest, max);
      var s := History(rest, max);
      assert Safe(s, key, limit, window as real, c.now) by {
        if rest != [] { LaterSafe(s, key, limit, window as real, LastTime(rest), c.now); }
      }
      hide Safe, Known, Evict, Admit, Monotone;
      EvictKnown(s, c.key, max);
      EvictSafe(s, c.key, max, key, limit, window as real, c.now);
      var t := Evict(s, c.key, max).value;
      if c.key == key { AdmitSafe(t, c, limit, window as real); } else { OtherSafe(t, c, key, limit, window as real); }
    }
  }

  // How many of the times lie in [from, from + window).
  function CountIn(s: seq<real>, from: real, window: real): nat {
    if s == [] then 0
    else CountIn(s[..|s| - 1], from, window) + if from <= s[|s| - 1] < from + window then 1 else 0
  }

  lemma {:induction false} CountAtMost(s: seq<real>, from: real, window: real, low: nat)
    requires Sorted(s) && low <= |s|
    requires forall i :: 0 <= i < low ==> s[i] < from
    ensures CountIn(s, from, window) <= |s| - low
  {
    if low < |s| {
      CountAtMost(s[..|s| - 1], from, window, low);
    } else if s != [] {
      CountAtMost(s[..|s| - 1], from, window, low - 1);
    }
  }

  // Spacing bounds the count in every interval of the window's length.
  lemma {:induction false} SpacedCount(s: seq<real>, limit: nat, from: real, window: real)
    requires Sorted(s) && Spaced(s, limit, window) && limit >= 1
    ensures CountIn(s, from, window) <= limit
  {
    if |s| > limit {
      var n := |s| - 1;
      if s[n] < from + window {
        assert s[n - limit] + window <= s[n];
        CountAtMost(s, from, window, n - limit + 1);
      } else {
        SpacedCount(s[..n], limit, from, window);
      }
    } else {
      CountAtMost(s, from, window, 0);
    }
  }

  // Any interval of the window's length holds at most limit acceptances of a held key.
  lemma WindowSafety(calls: seq<Call>, max: int, key: string, limit: nat, window: int, from: real)
    requires Monotone(calls) && PositiveLimits(calls) && Policy(calls, key, limit, window) && limit >= 1 && max >= 1
    ensures key in History(calls, max).events ==>
      key in History(calls, max).accepted && CountIn(History(calls, max).accepted[key], from, window as real) <= limit
  {
    HistorySafe(calls, max, key, limit, window);
    hide History, Monotone, PositiveLimits, Policy, CountIn, Sorted, Spaced, Tracks;
    var s := History(calls, max);
    if key in s.events { SpacedCount(s.accepted[key], limit, from, window as real); }
  }

  // ---------- The retry time ----------

  lemma TruncateBounds(x: real)
    requires x > 0.0
    ensures 0 <= Truncate(x) && Truncate(x) as real <= x < Truncate(x) as real + 1.0
  {
  }

  lemma RejectedShape(s: State, c: Call, max: int)
    requires c.key in s.events && c.limit >= 1 && |s.events[c.key]| <= c.limit
    requires Decide(s, c, max).1 != Ok(None)
    ensures var live := Trim(s.events[c.key], Cutoff(c));
            live != [] && live[0] > Cutoff(c) && |live| == c.limit
            && Decide(s, c, max).0.events == s.events[c.key := live] && Decide(s, c, max).1 == Ok(Some(Retry(live[0], c)))
  {
    TrimDrops(s.events[c.key], Cutoff(c));
    hide Trim, Retry;
  }

  lemma TrimLater(live: seq<real>, cutoff: real)
    requires live != []
    ensures |Trim(live, cutoff)| < |live| <==> live[0] <= cutoff
  {
    if live[0] <= cutoff { TrimDrops(live[1..], cutoff); }
  }

  lemma AskAgain(s: State, d: Call, max: int)
    requires d.key in s.events && d.limit >= 1 && |s.events[d.key]| == d.limit
    ensures Decide(s, d, max).1 == Ok(None) <==> s.events[d.key][0] <= Cutoff(d)
  {
    TrimLater(s.events[d.key], Cutoff(d));
    TrimDrops(s.events[d.key], Cutoff(d));
    hide Trim, Retry;
  }

  lemma RetryBounds(first: real, c: Call)
    requires first > Cutoff(c)
    ensures Retry(first, c) >= 1
    ensures Retry(first, c) as real - 1.0 <= first + c.window as real - c.now < Retry(first, c) as real
  {
    TruncateBounds(first + c.window as real - c.now);
  }

  // The seconds asked for reach past the moment the oldest live event leaves the window, by at
  // most one second; and a check made with nothing in between passes exactly from that moment on.
  ghost predicate RetryHolds(s: State, c: Call, max: int, later: real) {
    var (t, r) := Decide(s, c, max);
    && r.Ok? && r.value.Some? && r.value.value >= 1
    && c.key in t.events && t.events[c.key] != []
    && var leaves, n := t.events[c.key][0] + c.window as real, r.value.value as real;
       && c.now + n - 1.0 <= leaves < c.now + n
       && (Decide(t, c.(now := later), max).1 == Ok(None) <==> later >= leaves)
  }

  lemma RetryIsEnough(s: State, c: Call, max: int, later: real)
    requires c.key in s.events && c.limit >= 1 && |s.events[c.key]| <= c.limit
    requires Decide(s, c, max).1 != Ok(None)
    ensures RetryHolds(s, c, max, later)
  {
    RejectedShape(s, c, max);
    hide Trim, Retry, Decide;
    var live := Trim(s.events[c.key], Cutoff(c));
    RetryBounds(live[0], c);
    AskAgain(Decide(s, c, max).0, c.(now := later), max);
  }

  lemma NewKeyPasses(s: State, c: Call, max: int)
    requires c.key !in s.events && c.limit >= 1 && Evict(s, c.key, max).Ok?
    ensures Decide(s, c, max).1 == Ok(None)
  {
    hide Retry;
  }

  // Every rejection in a run with one policy for the key asks for a time that is enough.
  lemma RetryInRun(calls: seq<Call>, c: Call, max: int, later: real)
    requires Monotone(calls) && PositiveLimits(calls) && Policy(calls, c.key, c.limit, c.window) && c.limit >= 1 && max >= 1
    requires Decide(History(calls, max), c, max).1 != Ok(None)
    ensures RetryHolds(History(calls, max), c, max, later)
  {
    HistorySafe(calls, max, c.key, c.limit, c.window);
    NoEmptyPop(calls, max);
    var s := History(calls, max);
    hide Evict, Known, Decide, RetryHolds, History;
    EvictKnown(s, c.key, max);
    if c.key !in s.events { NewKeyPasses(s, c, max); }
    RetryIsEnough(s, c, max, later);
  }

  ghost predicate WindowFull(s: State, c: Call) {
    && c.key in s.accepted && |s.accepted[c.key]| >= c.limit
    && forall i :: |s.accepted[c.key]| - c.limit <= i < |s.accepted[c.key]| ==>
         c.now - c.window as real < s.accepted[c.key][i] <= c.now
  }

  lemma RejectedFull(s: State, c: Call, max: int)
    requires c.limit >= 1 && c.key in s.events && Safe(s, c.key, c.limit, c.window as real, c.now)
    requires Decide(s, c, max).1 != Ok(None)
    ensures WindowFull(s, c)
  {
    assert |s.events[c.key]| <= c.limit;
    RejectedShape(s, c, max);
    hide Decide, Trim, SafeTimes;
    TrimTimes(s.accepted[c.key], s.events[c.key], c.limit, c.window as real, c.now);
    LiveAreRecent(s.accepted[c.key], Trim(s.events[c.key], Cutoff(c)), c.limit, c.window as real, c.now);
  }

  lemma Prefix(calls: seq<Call>, c: Call)
    requires Monotone(calls + [c])
    ensures Monotone(calls) && (calls != [] ==> LastTime(calls) <= c.now)
  {
    assert forall i :: 0 <= i < |calls| ==> calls[i] == (calls + [c])[i];
    assert (calls + [c])[|calls|] == c;
  }

  // A rejection in such a run means that the window ending now already holds limit acceptances.
  lemma RejectionJustified(calls: seq<Call>, c: Call, max: int)
    requires Monotone(calls + [c]) && PositiveLimits(calls) && Policy(calls, c.key, c.limit, c.window) && c.limit >= 1 && max >= 1
    requires Decide(History(calls, max), c, max).1 != Ok(None)
    ensures WindowFull(History(calls, max), c)
  {
    var s := History(calls, max);
    Prefix(calls, c);
    hide Evict, Known, Decide, Monotone, PositiveLimits, Policy, Safe, WindowFull;
    HistorySafe(calls, max, c.key, c.limit, c.window);
    NoEmptyPop(calls, max);
    EvictKnown(s, c.key, max);
    if c.key !in s.events { NewKeyPasses(s, c, max); }
    if calls != [] { LaterSafe(s, c.key, c.limit, c.window as real, LastTime(calls), c.now); }
    assert calls == [] ==> s.events == map[];
    RejectedFull(s, c, max);
  }

  lemma LiveAreRecent(accepted: seq<real>, live: seq<real>, limit: nat, window: real, now: real)
    requires SafeTimes(accepted, live, limit, window, now) && live != [] && live[0] > now - window && |live| == limit
    ensures |accepted| >= limit
    ensures forall i :: |accepted| - limit <= i < |accepted| ==> now - window < accepted[i] <= now
  {
    assert live[0] == accepted[|accepted| - limit];
    assert forall i :: 0 <= i < |accepted| ==> accepted[i] in accepted;
  }

  // ---------- The number of keys ----------

  lemma AdmitKeys(s: State, c: Call)
    ensures Admit(s, c).0.events.Keys == s.events.Keys + {c.key}
  {
    hide Trim, Retry;
  }

  lemma OneMore(keys: set<string>, k: string)
    ensures |keys + {k}| == if k in keys then |keys| else |keys| + 1
    ensures |keys - {k}| == if k in keys then |keys| - 1 else |keys|
  {
    if k in keys { assert keys + {k} == keys; } else { assert keys - {k} == keys; }
  }

  lemma SizeAfter(keys: set<string>, front: string, key: string)
    requires key !in keys
    ensures |keys - {front} + {key}| == if front in keys then |keys| else |keys| + 1
  {
    OneMore(keys, front);
    OneMore(keys - {front}, key);
  }

  lemma DecideKeys(s: State, c: Call, max: int)
    requires MustEvict(s, c.key, max) ==> s.order != []
    ensures Decide(s, c, max).0.events.Keys ==
      if MustEvict(s, c.key, max) then s.events.Keys - {s.order[0]} + {c.key} else s.events.Keys + {c.key}
  {
    hide Admit, MustEvict;
    AdmitKeys(Evict(s, c.key, max).value, c);
  }

  // A check keeps the bound exactly when the key is known, there is room, or the key at the
  // front of the access order still has events.
  lemma BoundKept(s: State, c: Call, max: int)
    requires Known(s) && |s.events| <= max && max >= 1
    ensures |Decide(s, c, max).0.events| <= max <==>
      c.key in s.events || |s.events| < max || (s.order != [] && s.order[0] in s.events)
  {
    EvictKnown(s, c.key, max);
    hide Known;
    DecideKeys(s, c, max);
    hide Decide, Evict;
    var t := Decide(s, c, max).0;
    assert |t.events.Keys| == |t.events| && |s.events.Keys| == |s.events|;
    OneMore(s.events.Keys, c.key);
    if MustEvict(s, c.key, max) { SizeAfter(s.events.Keys, s.order[0], c.key); }
  }

  lemma AcceptsKnown(s: State, c: Call, max: int)
    requires !MustEvict(s, c.key, max) && |EventsOf(s, c.key)| < c.limit
    ensures var t := Decide(s, c, max).0;
            && t.events.Keys == s.events.Keys + {c.key} && t.order == s.order + [c.key]
            && |EventsOf(t, c.key)| <= |EventsOf(s, c.key)| + 1
  {
    TrimDrops(EventsOf(s, c.key), Cutoff(c));
    hide Trim, Retry;
  }

  lemma AcceptsNew(s: State, c: Call, max: int)
    requires MustEvict(s, c.key, max) && s.order != [] && c.limit >= 1
    ensures var t := Decide(s, c, max).0;
            t.events.Keys == s.events.Keys - {s.order[0]} + {c.key} && t.order == s.order[1..] + [c.key]
  {
    TrimDrops([], Cutoff(c));
    hide Trim, Retry;
  }

  lemma HistoryStep(calls: seq<Call>, c: Call, max: int)
    ensures History(calls + [c], max) == Decide(History(calls, max), c, max).0
  {
    assert (calls + [c])[..|calls|] == calls;
  }

  lemma AdmittedTwice(a: Call)
    requires a.limit >= 2
    ensures var t := Decide(Decide(Initial(), a, 1).0, a, 1).0; t.events.Keys == {a.key} && t.order == [a.key, a.key]
  {
    AcceptsKnown(Initial(), a, 1);
    hide Decide;
    var s := Decide(Initial(), a, 1).0;
    assert s.events.Keys == {a.key} && s.order == [a.key] && |EventsOf(s, a.key)| <= 1;
    AcceptsKnown(s, a, 1);
  }

  lemma EvictsFront(s: State, c: Call)
    requires c.limit >= 1 && c.key !in s.events && s.order != [] && s.events != map[]
    ensures var t := Decide(s, c, 1).0;
            t.events.Keys == s.events.Keys - {s.order[0]} + {c.key} && t.order == s.order[1..] + [c.key]
  {
    var k :| k in s.events;
    AcceptsNew(s, c, 1);
    hide Decide;
  }

  // One key admitted twice leaves a stale entry in the access order, and two other keys are then held at once.
  lemma BoundBroken(a: Call, b: Call, c: Call)
    requires a.key != b.key && a.key != c.key && b.key != c.key && a.limit >= 2 && b.limit >= 1 && c.limit >= 1
    ensures |History([a] + [a] + [b] + [c], 1).events| == 2
  {
    assert History([], 1) == Initial() && [] + [a] == [a];
    hide History, Decide;
    HistoryStep([], a, 1);
    HistoryStep([a], a, 1);
    HistoryStep([a] + [a], b, 1);
    HistoryStep([a] + [a] + [b], c, 1);
    AdmittedTwice(a);
    var t := History([a] + [a], 1);
    HoldsTwo(t, a, b, c);
  }

  lemma HoldsTwo(t: State, a: Call, b: Call, c: Call)
    requires t.events.Keys == {a.key} && t.order == [a.key, a.key]
    requires a.key != b.key && a.key != c.key && b.key != c.key && b.limit >= 1 && c.limit >= 1
    ensures |Decide(Decide(t, b, 1).0, c, 1).0.events| == 2
  {
    hide Decide;
    assert a.key in t.events;
    EvictsFront(t, b);
    var u := Decide(t, b, 1).0;
    assert u.events.Keys == {b.key} && u.order == [a.key, b.key];
    assert b.key in u.events;
    EvictsFront(u, c);
    var v := Decide(u, c, 1).0;
    assert v.events.Keys == {b.key, c.key};
    assert |v.events| == |v.events.Keys|;
  }

  // No check lets the number of held keys fall.
  lemma KeysNeverFall(s: State, c: Call, max: int)
    requires Known(s) && max >= 1
    ensures |Decide(s, c, max).0.events| >= |s.events|
  {
    EvictKnown(s, c.key, max);
    hide Known;
    DecideKeys(s, c, max);
    hide Decide, Evict;
    var t := Decide(s, c, max).0;
    assert |t.events.Keys| == |t.events| && |s.events.Keys| == |s.events|;
    OneMore(s.events.Keys, c.key);
    if MustEvict(s, c.key, max) { SizeAfter(s.events.Keys, s.order[0], c.key); }
  }

  // ---------- Any number of keys under a bound of one ----------

  // Different keys for different numbers.
  function Name(i: nat): (k: string)
    ensures |k| == i
  {
    seq(i, _ => 'x')
  }

  // The keys held once k new keys have come: the first of them pushes out the empty one.
  function Held(k: nat): set<string> { if k == 0 then {Name(0)} else Held(k - 1) - {Name(0)} + {Name(k)} }

  lemma {:induction false} HeldSize(k: nat)
    ensures Name(k) in Held(k) && |Held(k)| == if k == 0 then 1 else k
    ensures forall key :: key in Held(k) ==> |key| <= k && (k > 0 ==> key != Name(0))
  {
    if k > 0 {
      HeldSize(k - 1);
      assert |Name(k)| == k && |Name(0)| == 0;
      hide Name;
      SizeAfter(Held(k - 1), Name(0), Name(k));
      assert Name(0) in Held(k - 1) <==> k == 1;
    }
  }

  function CallFor(i: nat, n: nat): Call { Call(Name(i), n, 1, 0.0) }

  // n calls for the empty key, then one for each of the other keys.
  function Stale(n: nat, k: nat): seq<Call> {
    if k == 0 then [] else Stale(n, k - 1) + [CallFor(0, n)]
  }

  function Crowd(n: nat, k: nat): seq<Call> {
    if k == 0 then Stale(n, n) else Crowd(n, k - 1) + [CallFor(k, n)]
  }

  ghost predicate Fronts(order: seq<string>, n: nat, k: nat) {
    |order| == n && forall i :: 0 <= i < k && i < n ==> order[i] == Name(0)
  }

  ghost predicate Queued(s: State, k: nat) {
    && s.events.Keys == (if k == 0 then {} else {Name(0)})
    && Fronts(s.order, k, k) && |EventsOf(s, Name(0))| <= k
  }

  lemma QueueOne(s: State, n: nat, k: nat)
    requires Queued(s, k) && k < n
    ensures Queued(Decide(s, CallFor(0, n), 1).0, k + 1)
  {
    AcceptsKnown(s, CallFor(0, n), 1);
    hide Decide, EventsOf, Name;
    var t := Decide(s, CallFor(0, n), 1).0;
    assert t.events.Keys == {Name(0)};
  }

  lemma NothingQueued()
    ensures Queued(History([], 1), 0)
  {
  }

  lemma QueueCall(calls: seq<Call>, n: nat, k: nat)
    requires Queued(History(calls, 1), k) && k < n
    ensures Queued(History(calls + [CallFor(0, n)], 1), k + 1)
  {
    hide History, Queued, Decide, CallFor;
    HistoryStep(calls, CallFor(0, n), 1);
    QueueOne(History(calls, 1), n, k);
  }

  lemma {:induction false} StaleState(n: nat, k: nat)
    requires k <= n
    ensures Queued(History(Stale(n, k), 1), k)
  {
    hide History, Queued, CallFor;
    if k == 0 {
      NothingQueued();
    } else {
      StaleState(n, k - 1);
      QueueCall(Stale(n, k - 1), n, k - 1);
    }
  }

  ghost predicate Crowded(s: State, n: nat, k: nat) { s.events.Keys == Held(k) && k <= n && Fronts(s.order, n, n - k) }

  lemma ShiftFronts(order: seq<string>, n: nat, k: nat, key: string)
    requires Fronts(order, n, k) && 0 < k <= n
    ensures order[0] == Name(0) && Fronts(order[1..] + [key], n, k - 1)
  {
    hide Name;
  }

  lemma CrowdOne(s: State, n: nat, k: nat)
    requires Crowded(s, n, k) && k < n
    ensures Crowded(Decide(s, CallFor(k + 1, n), 1).0, n, k + 1)
  {
    var c := CallFor(k + 1, n);
    HeldSize(k);
    ShiftFronts(s.order, n, n - k, c.key);
    assert Held(k + 1) == Held(k) - {Name(0)} + {Name(k + 1)};
    assert Name(k + 1) !in Held(k) by { hide Held; }
    hide Held, Decide, Name, Fronts;
    assert Name(k) in s.events.Keys;
    EvictsFront(s, c);
  }

  lemma CrowdCall(calls: seq<Call>, n: nat, k: nat)
    requires Crowded(History(calls, 1), n, k) && k < n
    ensures Crowded(History(calls + [CallFor(k + 1, n)], 1), n, k + 1)
  {
    hide History, Crowded, Decide, CallFor;
    HistoryStep(calls, CallFor(k + 1, n), 1);
    CrowdOne(History(calls, 1), n, k);
  }

  lemma QueuedIsCrowded(s: State, n: nat)
    requires Queued(s, n) && n > 0
    ensures Crowded(s, n, 0)
  {
    hide Name, EventsOf, Fronts;
  }

  lemma {:induction false} CrowdState(n: nat, k: nat)
    requires k <= n && n > 0
    ensures Crowded(History(Crowd(n, k), 1), n, k)
  {
    hide History, Crowded, CallFor, Queued, Stale;
    if k == 0 {
      StaleState(n, n);
      QueuedIsCrowded(History(Stale(n, n), 1), n);
    } else {
      CrowdState(n, k - 1);
      CrowdCall(Crowd(n, k - 1), n, k - 1);
    }
  }

  // A run of calls with positive limits at times that never fall, which ends with n keys held under a bound of one.
  predicate HoldsKeys(calls: seq<Call>, n: nat) {
    PositiveLimits(calls) && Monotone(calls) && |History(calls, 1).events.Keys| == n
  }

  lemma NoKeysHeld()
    ensures HoldsKeys([], 0)
  {
  }

  lemma CrowdHolds(n: nat)
    requires n > 0
    ensures HoldsKeys(Crowd(n, n), n)
  {
    hide Held, History, Crowd, Fronts;
    CrowdState(n, n);
    CrowdCalls(n, n);
    HeldSize(n);
  }

  // For every n some run with max_keys = 1 ends up holding n keys.
  lemma AnyNumberHeld(n: nat)
    ensures exists calls :: HoldsKeys(calls, n)
  {
    hide HoldsKeys, Crowd;
    if n == 0 { NoKeysHeld(); } else { CrowdHolds(n); }
  }

  lemma {:induction false} CrowdCalls(n: nat, k: nat)
    requires n > 0
    ensures forall c :: c in Crowd(n, k) ==> c.limit == n && c.now == 0.0
  {
    if k > 0 { CrowdCalls(n, k - 1); } else { StaleCalls(n, n); }
  }

  lemma {:induction false} StaleCalls(n: nat, k: nat)
    ensures forall c :: c in Stale(n, k) ==> c.limit == n && c.now == 0.0
  {
    if k > 0 { StaleCalls(n, k - 1); }
  }
}
