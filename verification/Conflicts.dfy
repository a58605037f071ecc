// What the replies of the operator machine mean, and exactly when a conflict of
// idempotency keys is reported for an observation that is on the ledger.
module Conflicts {
  import opened Wrappers
  import opened State
  import opened Operator

  // ---------- One step of one process ----------

  // What a step of process i does to claims and ledger.
  ghost predicate Effect(w: World, v: World, i: nat)
    requires i < |w.processes| == |v.processes|
  {
    && (forall j :: 0 <= j < |w.processes| && j != i ==> v.processes[j] == w.processes[j])
    && v.processes[i].request == w.processes[i].request
    && (forall c :: c in w.claims ==> c in v.claims)
    && (forall c :: c in v.claims ==> c in w.claims || (c.owner == i && v.processes[i].phase == Claimed))
    && (forall l :: l in w.ledger ==> l in v.ledger)
    && (w.processes[i].phase == Claimed ==> v.processes[i].phase == Appended && HasEntry(v, i))
    && (v.processes[i].phase == Claimed ==> w.processes[i].phase == Checked)
    && (w.processes[i].phase.Answered? ==> v == w)
    && v.processes[i].phase != Arrived
  }

  lemma AppendHasEntry(w: World, i: nat)
    requires i < |w.processes|
    ensures HasEntry(AppendStep(w, i), i)
  {
    var l := LedgerEntry(i, w.processes[i].request.observation);
    assert l in AppendStep(w, i).ledger && l.owner == i;
  }

  lemma StepEffect(w: World, i: nat)
    requires i < |w.processes|
    ensures |Advance(w, i).processes| == |w.processes| && Effect(w, Advance(w, i), i)
  {
    hide Compose, Lookup, Save, Claim, HasEntry;
    AppendHasEntry(w, i);
  }

  // ---------- A claim that was let go of is on the ledger ----------

  ghost predicate ClaimDone(w: World, i: nat)
    requires i < |w.processes|
  {
    HasClaim(w, i) && w.processes[i].phase != Claimed ==> HasEntry(w, i)
  }

  ghost predicate ClaimsDone(w: World) { forall i :: 0 <= i < |w.processes| ==> ClaimDone(w, i) }

  lemma NoClaimBefore(w: World, i: nat)
    requires ClaimsOwned(w) && (i < |w.processes| ==> !PastClaim(w.processes[i].phase))
    ensures !HasClaim(w, i)
  {
    hide Compose;
  }

  lemma OtherDone(w: World, v: World, i: nat, j: nat)
    requires i < |w.processes| == |v.processes| && Effect(w, v, i) && j < |w.processes| && j != i && ClaimDone(w, j)
    ensures ClaimDone(v, j)
  {
    if HasClaim(v, j) {
      var c :| c in v.claims && c.owner == j;
      assert c in w.claims && HasClaim(w, j);
      if v.processes[j].phase != Claimed {
        var l :| l in w.ledger && l.owner == j;
        assert l in v.ledger;
      }
    }
  }

  lemma SelfDone(w: World, v: World, i: nat)
    requires i < |w.processes| == |v.processes| && Effect(w, v, i) && ClaimsOwned(w) && ClaimDone(w, i)
    ensures ClaimDone(v, i)
  {
    if !PastClaim(w.processes[i].phase) { NoClaimBefore(w, i); }
    if HasClaim(v, i) && v.processes[i].phase != Claimed && w.processes[i].phase != Claimed {
      var c :| c in v.claims && c.owner == i;
      assert c in w.claims && HasClaim(w, i);
      var l :| l in w.ledger && l.owner == i;
      assert l in v.ledger;
    }
  }

  lemma ApplyDone(w: World, e: Event)
    requires ClaimsOwned(w) && ClaimsDone(w)
    ensures ClaimsDone(Apply(w, e))
  {
    var v := Apply(w, e);
    match e
    case Arrive(q) =>
      forall j | 0 <= j < |v.processes| ensures ClaimDone(v, j) {
        NoClaimBefore(w, |w.processes|);
        if j < |w.processes| { assert ClaimDone(w, j); }
      }
    case Run(i) =>
      if i < |w.processes| {
        StepEffect(w, i);
        hide Advance, Effect, ClaimDone;
        forall j | 0 <= j < |v.processes| ensures ClaimDone(v, j) {
          if j == i { SelfDone(w, v, i); } else { OtherDone(w, v, i, j); }
        }
      }
  }

  lemma {:induction false} HistoryDone(events: seq<Event>)
    ensures ClaimsDone(History(events))
  {
    hide Apply;
    if events != [] {
      hide ClaimsDone, ClaimsOwned, HoldersClaimed, LedgerOwned, OneEntryEach, Counting, RecordsWritten, RepliesTrue;
      HistoryKeeps(events[..|events| - 1]);
      HistoryDone(events[..|events| - 1]);
      ApplyDone(History(events[..|events| - 1]), events[|events| - 1]);
    }
  }

  // ---------- The rival of a conflict ----------

  // Another request was accepted under the same key with a different fingerprint.
  ghost predicate Rival(w: World, i: nat, j: nat)
    requires i < |w.processes|
  {
    && j < |w.processes| && j != i && w.processes[j].phase == Answered(Accepted)
    && w.processes[i].request.key.Some? && w.processes[j].request.key == w.processes[i].request.key
    && w.processes[j].request.fingerprint != w.processes[i].request.fingerprint
  }

  ghost predicate RivalKnown(w: World, i: nat)
    requires i < |w.processes|
  {
    w.processes[i].phase == Answered(KeyConflict) ==> exists j :: Rival(w, i, j)
  }

  ghost predicate RivalsKnown(w: World) { forall i :: 0 <= i < |w.processes| ==> RivalKnown(w, i) }

  lemma ComposeSecond(a: string, b: string, c: string)
    requires Compose(a, b) == Compose(a, c)
    ensures b == c
  {
    assert b == Compose(a, b)[|a| + 1..] && c == Compose(a, c)[|a| + 1..];
  }

  // A stored record under another fingerprint belongs to a rival.
  lemma RecordHasRival(w: World, i: nat)
    requires RecordsWritten(w) && i < |w.processes| && w.processes[i].request.key.Some? && w.processes[i].phase != Answered(Accepted)
    requires var q := w.processes[i].request;
             var k := Compose(Namespace(), q.key.value);
             k in w.store.idempotency && w.store.idempotency[k].fingerprint != q.fingerprint
    ensures exists j :: Rival(w, i, j)
  {
    var q := w.processes[i].request;
    var k := Compose(Namespace(), q.key.value);
    var l :| Wrote(w, k, l);
    ComposeSecond(Namespace(), q.key.value, w.processes[l.owner].request.key.value);
    assert Rival(w, i, l.owner);
  }

  lemma NewConflict(w: World, i: nat)
    requires i < |w.processes| && !w.processes[i].phase.Answered? && Advance(w, i).processes[i].phase == Answered(KeyConflict)
    ensures var q := w.processes[i].request;
            q.key.Some? && var k := Compose(Namespace(), q.key.value);
            k in w.store.idempotency && w.store.idempotency[k].fingerprint != q.fingerprint
  {
    hide Compose;
  }

  lemma RivalStays(w: World, v: World, i: nat, j: nat)
    requires i < |w.processes| <= |v.processes| && Rival(w, i, j)
    requires v.processes[i].request == w.processes[i].request && v.processes[j] == w.processes[j]
    ensures Rival(v, i, j)
  {
  }

  lemma StepRival(w: World, i: nat, j: nat)
    requires RecordsWritten(w) && RivalsKnown(w) && i < |w.processes| && j < |w.processes|
    ensures |Advance(w, i).processes| == |w.processes| && RivalKnown(Advance(w, i), j)
  {
    var v := Advance(w, i);
    StepEffect(w, i);
    assert RivalKnown(w, j);
    if v.processes[j].phase == Answered(KeyConflict) {
      if w.processes[j].phase != Answered(KeyConflict) {
        assert i == j;
        NewConflict(w, i);
        hide Advance, Compose;
        RecordHasRival(w, i);
      }
      var r: nat :| Rival(w, j, r);
      assert w.processes[r].phase == Answered(Accepted);
      hide Advance;
      assert v.processes[r] == w.processes[r];
      RivalStays(w, v, j, r);
    }
  }

  lemma ApplyRivals(w: World, e: Event)
    requires RecordsWritten(w) && RivalsKnown(w)
    ensures RivalsKnown(Apply(w, e))
  {
    var v := Apply(w, e);
    if e.Run? && e.process < |w.processes| { StepEffect(w, e.process); }
    hide RecordsWritten, Advance, Effect;
    forall j | 0 <= j < |v.processes| ensures RivalKnown(v, j) {
      match e
      case Arrive(q) =>
        if j < |w.processes| && v.processes[j].phase == Answered(KeyConflict) {
          assert RivalKnown(w, j);
          var r: nat :| Rival(w, j, r);
          RivalStays(w, v, j, r);
        }
      case Run(i) =>
        if i < |w.processes| { StepRival(w, i, j); } else { assert RivalKnown(w, j); }
    }
  }

  lemma {:induction false} HistoryRivals(events: seq<Event>)
    ensures RivalsKnown(History(events))
  {
    hide Apply;
    if events != [] {
      hide RivalsKnown, Ownership, Counting, RecordsWritten, RepliesTrue;
      HistoryKeeps(events[..|events| - 1]);
      HistoryRivals(events[..|events| - 1]);
      ApplyRivals(History(events[..|events| - 1]), events[|events| - 1]);
    }
  }

  // ---------- What every reply means ----------

  lemma EntryNeedsClaim(w: World, i: nat)
    requires Ownership(w) && HasEntry(w, i)
    ensures HasClaim(w, i)
  {
    hide Compose;
  }

  // An accepted request is on the ledger, a cached reply repeats an observation that is, a
  // request turned away as unauthorised or as a replay was never appended, and a request told
  // of a conflict has a rival and is on the ledger exactly when it claimed its sequence.
  lemma RepliesMean(events: seq<Event>, i: nat)
    requires i < |History(events).processes| && History(events).processes[i].phase.Answered?
    ensures var w := History(events);
            match w.processes[i].phase.reply
            case Accepted => exists l :: l in w.ledger && l.owner == i && l.observation == w.processes[i].request.observation
            case Cached(o) => exists l :: l in w.ledger && l.observation == o
            case Unauthorized => !HasEntry(w, i)
            case ReplayRejected => !HasEntry(w, i)
            case KeyConflict => (HasEntry(w, i) <==> HasClaim(w, i)) && exists j :: Rival(w, i, j)
  {
    HistoryKeeps(events);
    HistoryDone(events);
    HistoryRivals(events);
    var w := History(events);
    hide History, Counting, RecordsWritten, Compose;
    assert Truthful(w, i) && ClaimDone(w, i) && RivalKnown(w, i);
    if HasEntry(w, i) { EntryNeedsClaim(w, i); }
    if w.processes[i].phase.reply == Accepted {
      var l :| l in w.ledger && l.owner == i;
      assert l.observation == w.processes[i].request.observation;
    }
  }

  // ---------- When a conflict is reported for a recorded observation ----------

  // Past its lookup, and without a conflict unless it has claimed.
  ghost predicate PassedLookup(w: World, i: nat) {
    i < |w.processes| && w.processes[i].phase != Arrived && (w.processes[i].phase == Answered(KeyConflict) ==> HasClaim(w, i))
  }

  // Turned away at its lookup.
  ghost predicate TurnedAway(w: World, i: nat) {
    i < |w.processes| && w.processes[i].phase.Answered? && !HasClaim(w, i)
  }

  lemma StepPassed(w: World, i: nat, j: nat)
    requires Invariant(w) && i < |w.processes| && PassedLookup(w, j)
    ensures PassedLookup(Advance(w, i), j)
  {
    StepEffect(w, i);
    var v := Advance(w, i);
    if v.processes[j].phase == Answered(KeyConflict) {
      if w.processes[j].phase != Answered(KeyConflict) {
        assert j == i;
        NewConflictAppended(w, i);
        assert Truthful(w, i) && HasEntry(w, i);
        EntryNeedsClaim(w, i);
      }
      var c :| c in w.claims && c.owner == j;
      assert c in v.claims;
    }
  }

  // Past the lookup only the save reports a conflict.
  lemma NewConflictAppended(w: World, i: nat)
    requires i < |w.processes| && w.processes[i].phase != Arrived && !w.processes[i].phase.Answered?
    requires Advance(w, i).processes[i].phase == Answered(KeyConflict)
    ensures w.processes[i].phase == Appended
  {
    hide Compose;
  }

  lemma StepTurnedAway(w: World, i: nat, j: nat)
    requires i < |w.processes| && TurnedAway(w, j)
    ensures TurnedAway(Advance(w, i), j) && Advance(w, i).processes[j] == w.processes[j]
  {
    StepEffect(w, i);
    hide Advance;
  }

  lemma {:induction false} StaysPassed(events: seq<Event>, later: seq<Event>, j: nat)
    requires PassedLookup(History(events), j)
    ensures PassedLookup(History(events + later), j)
  {
    if later == [] {
      assert events + later == events;
    } else {
      var some, last := later[..|later| - 1], later[|later| - 1];
      assert events + later == events + some + [last];
      Extend(events + some, last);
      StaysPassed(events, some, j);
      HistoryKeeps(events + some);
      hide History, Invariant, Advance;
      if last.Run? && last.process < |History(events + some).processes| { StepPassed(History(events + some), last.process, j); }
    }
  }

  lemma {:induction false} StaysTurnedAway(events: seq<Event>, later: seq<Event>, j: nat)
    requires TurnedAway(History(events), j)
    ensures TurnedAway(History(events + later), j) && History(events + later).processes[j] == History(events).processes[j]
  {
    if later == [] {
      assert events + later == events;
    } else {
      var some, last := later[..|later| - 1], later[|later| - 1];
      assert events + later == events + some + [last];
      Extend(events + some, last);
      StaysTurnedAway(events, some, j);
      hide History, Advance;
      if last.Run? && last.process < |History(events + some).processes| { StepTurnedAway(History(events + some), last.process, j); }
    }
  }

  // The lookup itself: it turns the request away exactly when a record is stored under its key.
  lemma LookupDecides(w: World, i: nat)
    requires ClaimsOwned(w) && i < |w.processes| && w.processes[i].phase == Arrived && w.processes[i].request.key.Some?
    ensures var v := Apply(w, Run(i));
            if Compose(Namespace(), w.processes[i].request.key.value) in w.store.idempotency then TurnedAway(v, i) else PassedLookup(v, i)
  {
    NoClaimBefore(w, i);
    hide Compose;
  }

  // A request is told of a conflict although its observation is on the ledger exactly when no
  // record was stored under its key at its lookup: the conflicting one was saved in between.
  lemma ConflictRecordedIff(before: seq<Event>, later: seq<Event>, i: nat)
    requires var w := History(before);
             i < |w.processes| && w.processes[i].phase == Arrived && w.processes[i].request.key.Some?
    requires var end := History(before + [Run(i)] + later);
             i < |end.processes| && end.processes[i].phase == Answered(KeyConflict)
    ensures HasEntry(History(before + [Run(i)] + later), i) <==>
            Compose(Namespace(), History(before).processes[i].request.key.value) !in History(before).store.idempotency
  {
    var w, all := History(before), before + [Run(i)] + later;
    HistoryKeeps(before);
    Extend(before, Run(i));
    LookupDecides(w, i);
    RepliesMean(all, i);
    hide History, Apply, HasEntry, HasClaim, Compose, Invariant;
    if Compose(Namespace(), w.processes[i].request.key.value) in w.store.idempotency {
      StaysTurnedAway(before + [Run(i)], later, i);
    } else {
      StaysPassed(before + [Run(i)], later, i);
    }
  }

  // Run without interruption, a request that is told of a conflict leaves the ledger alone.
  lemma UninterruptedConflict(w: World, q: Request)
    requires ReplyTo(Handled(w, q), |w.processes|) == Some(KeyConflict)
    ensures Handled(w, q).ledger == w.ledger && Handled(w, q).store == w.store
  {
    if LookedUp(w, q) != Ok(None) || !q.authentic || Taken(w, q).None? {
      hide Handled, Lookup, Claim, Compose;
      HandledEarly(w, q);
    } else {
      NoLateConflict(w, q);
    }
  }

  lemma NoLateConflict(w: World, q: Request)
    requires LookedUp(w, q) == Ok(None) && q.authentic && Taken(w, q).Some?
    ensures ReplyTo(Handled(w, q), |w.processes|) == Some(Accepted)
  {
    hide Handled, Compose, ReplyTo;
    HandledLate(w, q);
  }
}
