// The publish and subscribe bus. Each method is one region under the bus lock.
module Streaming {
  import opened Wrappers
  import opened Text

  const QUEUE_SIZE: nat := 200

  // The last n elements.
  function Last<T>(s: seq<T>, n: nat): (r: seq<T>)
    ensures |r| == if |s| < n then |s| else n
  {
    if |s| <= n then s else s[|s| - n..]
  }

  // A bounded history that appends each event holds the last events published.
  lemma LastAppend<T>(s: seq<T>, e: T, n: nat)
    ensures Last(Last(s, n) + [e], n) == Last(s + [e], n)
  {
    if |s| > n && n > 0 {
      assert (Last(s, n) + [e])[1..] == (s + [e])[|s| + 1 - n..];
    }
  }

  // items[-limit:] in Python: zero gives everything, a negative limit drops that many from the front.
  function Tail<T>(items: seq<T>, limit: int): seq<T> {
    if limit > 0 then Last(items, limit)
    else if -limit <= |items| then items[-limit..]
    else []
  }

  // For a limit that is not negative the recent events are the last ones published exactly when
  // the buffer is large enough for the limit or has never overflowed; a limit of zero gives the
  // whole history, so only an empty one is right.
  lemma RecentIff<T>(published: seq<T>, limit: nat, size: nat)
    ensures Tail(Last(published, size), limit) == Last(published, limit) <==>
            if limit == 0 then published == [] || size == 0 else limit <= size || |published| <= size
    ensures limit == 0 || limit > size ==> Tail(Last(published, size), limit) == Last(published, size)
  {
    if 0 < limit <= size && |published| > size {
      assert Last(published, size)[size - limit..] == published[|published| - limit..];
    }
  }

  lemma SliceTwice<T>(s: seq<T>, i: nat, j: nat)
    requires i + j <= |s|
    ensures s[i..][j..] == s[i + j..]
  {
  }

  // A negative limit keeps the end of the history, short of that many events from its front.
  lemma NegativeLimit<T>(published: seq<T>, limit: int, size: nat)
    requires limit < 0
    ensures var held := |Last(published, size)|;
            Tail(Last(published, size), limit) == Last(published, if held + limit > 0 then held + limit else 0)
  {
    var h := Last(published, size);
    SliceTwice(published, |published| - |h|, if -limit < |h| then -limit else |h|);
  }

  // list.remove: the first occurrence goes.
  function Remove<T(==)>(s: seq<T>, x: T): seq<T> {
    if s == [] then [] else if s[0] == x then s[1..] else [s[0]] + Remove(s[1..], x)
  }

  lemma {:induction false} RemoveDistinct<T>(s: seq<T>, x: T)
    requires Distinct(s)
    ensures Distinct(Remove(s, x))
    ensures forall y :: y in Remove(s, x) <==> y in s && y != x
  {
    if s != [] {
      assert s == [s[0]] + s[1..];
      RemoveDistinct(s[1..], x);
      if s[0] != x {
        var r := Remove(s[1..], x);
        forall i, j | 0 <= i < j < |[s[0]] + r| ensures ([s[0]] + r)[i] != ([s[0]] + r)[j] {
          if i == 0 { assert r[j - 1] in r; }
        }
      }
    }
  }

  class Queue<E> {
    var items: seq<E>
    // What the reader has taken, and the part of the published sequence the queue covers.
    ghost var consumed: seq<E>
    ghost var start: nat
    ghost var stop: nat

    constructor (ghost from: nat)
      ensures items == [] && consumed == [] && start == from && stop == from
    {
      items := [];
      consumed, start, stop := [], from, from;
    }

    method PutNowait(e: E) returns (ok: bool)
      modifies this`items
      ensures ok <==> old(|items|) < 200
      ensures items == if ok then old(items) + [e] else old(items)
    {
      ok := |items| < QUEUE_SIZE;
      if ok { items := items + [e]; }
    }

    // None stands for a reader that waits.
    method Get() returns (e: Option<E>)
      modifies this`items, this`consumed
      ensures e.None? <==> old(items) == []
      ensures e.None? ==> items == old(items) && consumed == old(consumed)
      ensures e.Some? ==> old(items) == [e.value] + items && consumed == old(consumed) + [e.value]
    {
      if |items| == 0 { return None; }
      e := Some(items[0]);
      consumed := consumed + [items[0]];
      items := items[1..];
    }
  }

  // A stretch stays a stretch of the longer sequence, and one that reached its end can take the new event.
  lemma SegmentKept<E>(consumed: seq<E>, items: seq<E>, published: seq<E>, e: E, start: nat, end: nat)
    requires start <= end <= |published| && consumed + items == published[start..end]
    ensures consumed + items == (published + [e])[start..end]
    ensures end == |published| ==> consumed + (items + [e]) == (published + [e])[start..end + 1]
  {
    assert consumed + (items + [e]) == (consumed + items) + [e];
  }

  class EventBus<E(==)> {
    const bufferSize: nat
    var history: seq<E>
    var subscribers: seq<Queue<E>>
    ghost var published: seq<E>
    ghost var issued: set<Queue<E>>

    // What q has delivered followed by what it still holds is one gap-free stretch of the
    // published events, from its subscription to now or to its removal.
    ghost predicate Segment(q: Queue<E>)
      reads this, q
    {
      var end := if q in subscribers then |published| else q.stop;
      q.start <= end <= |published| && q.consumed + q.items == published[q.start..end] && |q.items| <= QUEUE_SIZE
    }

    ghost predicate Valid()
      reads this, issued
    {
      && history == Last(published, bufferSize)
      && Distinct(subscribers)
      && (forall q :: q in subscribers ==> q in issued)
      && (forall q :: q in issued ==> Segment(q))
    }

    constructor (size: nat)
      ensures Valid() && bufferSize == size && published == [] && subscribers == [] && issued == {}
    {
      bufferSize, history, subscribers := size, [], [];
      published, issued := [], {};
    }

    method Subscribe() returns (q: Queue<E>)
      requires Valid()
      modifies this`subscribers, this`issued
      ensures Valid() && fresh(q) && issued == old(issued) + {q}
      ensures subscribers == old(subscribers) + [q]
      ensures q.start == |published| && q.items == [] && q.consumed == []
    {
      q := new Queue<E>(|published|);
      assert forall p :: p in subscribers ==> p != q;
      subscribers := subscribers + [q];
      issued := issued + {q};
      assert forall p :: p in old(issued) ==> old(Segment(p));
    }

    method Unsubscribe(q: Queue<E>)
      requires Valid() && q in issued
      modifies this`subscribers, q`stop
      ensures Valid()
      ensures subscribers == Remove(old(subscribers), q)
      ensures q.stop == if q in old(subscribers) then |published| else old(q.stop)
    {
      RemoveDistinct(subscribers, q);
      if q in subscribers {
        q.stop := |published|;
        subscribers := Remove(subscribers, q);
      } else {
        NothingToRemove(subscribers, q);
      }
      assert forall p :: p in issued ==> old(Segment(p));
      forall p | p in issued ensures Segment(p) {}
    }

    method Receive(q: Queue<E>) returns (e: Option<E>)
      requires Valid() && q in issued
      modifies q`items, q`consumed
      ensures Valid()
      ensures e.None? <==> old(q.items) == []
      ensures e.Some? ==> q.consumed == old(q.consumed) + [e.value] && old(q.items) == [e.value] + q.items
      ensures e.Some? ==> q.start + old(|q.consumed|) < |published| && e.value == published[q.start + old(|q.consumed|)]
    {
      e := q.Get();
      assert forall p :: p in issued ==> old(Segment(p));
      forall p | p in issued ensures Segment(p) {
        assert p != q ==> p.items == old(p.items);
      }
    }

    static lemma NextListed(all: seq<Queue<E>>, i: nat, full: set<Queue<E>>, dead: seq<Queue<E>>, q: Queue<E>)
      requires Distinct(all) && i < |all| && q == all[i]
      requires Distinct(dead) && forall p :: p in dead <==> p in all[..i] && p in full
      ensures var next := if q in full then dead + [q] else dead;
              Distinct(next) && forall p :: p in next <==> p in all[..i + 1] && p in full
    {
      assert all[..i + 1] == all[..i] + [q] && q !in all[..i];
    }

    // The delivery loop: every queue with room gets the event; the full ones are listed.
    method Deliver(e: E) returns (dead: seq<Queue<E>>)
      requires Distinct(subscribers)
      modifies subscribers`items
      ensures forall q :: q in subscribers ==>
        q.items == if old(|q.items|) < 200 then old(q.items) + [e] else old(q.items)
      ensures Distinct(dead)
      ensures forall q :: q in dead <==> q in subscribers && old(|q.items|) >= 200
    {
      dead := [];
      ghost var full := set q | q in subscribers && |q.items| >= QUEUE_SIZE;
      for i := 0 to |subscribers|
        invariant forall j :: 0 <= j < i ==>
          subscribers[j].items ==
            if old(|subscribers[j].items|) < QUEUE_SIZE then old(subscribers[j].items) + [e] else old(subscribers[j].items)
        invariant forall j :: i <= j < |subscribers| ==> subscribers[j].items == old(subscribers[j].items)
        invariant Distinct(dead)
        invariant forall q :: q in dead <==> q in subscribers[..i] && q in full
      {
        var q := subscribers[i];
        NextListed(subscribers, i, full, dead, q);
        var ok := q.PutNowait(e);
        if !ok { dead := dead + [q]; }
      }
      assert subscribers[..|subscribers|] == subscribers;
    }

    // The removal loop; a removed queue stops before the event it had no room for.
    method Drop(dead: seq<Queue<E>>, ghost at: nat)
      requires Distinct(subscribers) && Distinct(dead) && forall q :: q in dead ==> q in subscribers
      modifies this`subscribers, subscribers`stop
      ensures Distinct(subscribers) && forall q :: q in subscribers <==> q in old(subscribers) && q !in dead
      ensures forall q :: q in old(subscribers) ==> q.stop == if q in dead then at else old(q.stop)
    {
      for i := 0 to |dead|
        invariant Distinct(subscribers)
        invariant forall q :: q in subscribers <==> q in old(subscribers) && q !in dead[..i]
        invariant forall q :: q in old(subscribers) ==> q.stop == if q in dead[..i] then at else old(q.stop)
      {
        assert dead[..i + 1] == dead[..i] + [dead[i]];
        assert dead[i] in dead && dead[i] in old(subscribers);
        RemoveDistinct(subscribers, dead[i]);
        subscribers := Remove(subscribers, dead[i]);
        dead[i].stop := at;
      }
      assert dead[..|dead|] == dead;
    }

    method Fanout(e: E, ghost at: nat)
      requires Distinct(subscribers)
      modifies this`subscribers, subscribers`items, subscribers`stop
      ensures Distinct(subscribers)
      ensures forall q :: q in subscribers <==> q in old(subscribers) && old(|q.items|) < 200
      ensures forall q :: q in subscribers ==> q.items == old(q.items) + [e] && q.stop == old(q.stop)
      ensures forall q :: q in old(subscribers) && q !in subscribers ==> q.items == old(q.items) && q.stop == at
    {
      hide Distinct;
      var dead := Deliver(e);
      assert forall q :: q in dead ==> q in old(subscribers);
      Drop(dead, at);
    }

    method Publish(e: E)
      requires Valid()
      modifies this`history, this`subscribers, this`published, subscribers`items, subscribers`stop
      ensures Valid() && published == old(published) + [e]
      ensures forall q :: q in subscribers <==> q in old(subscribers) && old(|q.items|) < 200
      ensures forall q :: q in subscribers ==> q.items == old(q.items) + [e]
      ensures forall q :: q in old(subscribers) && q !in subscribers ==> q.items == old(q.items) && q.stop == |old(published)|
    {
      hide Distinct, Last;
      LastAppend(published, e, bufferSize);
      history := Last(history + [e], bufferSize);
      published := published + [e];
      Fanout(e, |published| - 1);
      forall q | q in issued ensures Segment(q) {
        assert old(Segment(q));
        SegmentKept(q.consumed, old(q.items), old(published), e, q.start, old(if q in subscribers then |published| else q.stop));
      }
    }

    method GetRecentEvents(limit: int) returns (r: seq<E>)
      requires Valid()
      ensures r == Tail(Last(published, bufferSize), limit)
    {
      r := Tail(history, limit);
    }
  }

  // Whatever has happened, the i-th event a reader gets is the i-th one published since it subscribed.
  lemma Delivered<E>(bus: EventBus<E>, q: Queue<E>, i: nat)
    requires bus.Valid() && q in bus.issued && i < |q.consumed|
    ensures q.start + i < |bus.published| && q.consumed[i] == bus.published[q.start + i]
  {
    assert bus.Segment(q);
    assert q.consumed[i] == (q.consumed + q.items)[i];
  }

  lemma {:induction false} NothingToRemove<T>(s: seq<T>, x: T)
    requires x !in s
    ensures Remove(s, x) == s
  {
    if s != [] {
      assert s == [s[0]] + s[1..];
      NothingToRemove(s[1..], x);
    }
  }
}
