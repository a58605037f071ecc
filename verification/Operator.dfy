// Operator telemetry under interleaving: each request runs as locked steps
// (lookup, claim, ledger append, save), and the steps of different requests
// may come in any order. A request that stops half way is never run again.
module Operator {
  import opened Wrappers
  import opened State

  datatype Observation = Observation(tenant: string, asset: string, sequence: int, body: string)

  // authentic: the signature and source checks, which read no shared state, pass.
  datatype Request = Request(key: Option<string>, fingerprint: string, authentic: bool, observation: Observation)

  datatype Reply = Accepted | Cached(stored: Observation) | KeyConflict | Unauthorized | ReplayRejected

  datatype Phase = Arrived | Checked | Claimed | Appended | Answered(reply: Reply)

  datatype Process = Process(request: Request, phase: Phase)

  // Who claimed and who appended is kept beside the data the program keeps.
  datatype ClaimEntry = ClaimEntry(owner: nat, key: string, sequence: int)

  datatype LedgerEntry = LedgerEntry(owner: nat, observation: Observation)

  datatype World = World(store: Store<Observation>, ledger: seq<LedgerEntry>, processes: seq<Process>, claims: seq<ClaimEntry>)

  datatype Event = Arrive(request: Request) | Run(process: nat)

  function Namespace(): string { "operator-observations" }

  function SequenceKey(o: Observation): string { Compose(o.tenant, o.asset) }

  function To(w: World, i: nat, phase: Phase): World
    requires i < |w.processes|
  {
    w.(processes := w.processes[i := w.processes[i].(phase := phase)])
  }

  function LookupStep(w: World, i: nat): World
    requires i < |w.processes|
  {
    var q := w.processes[i].request;
    if q.key.None? then To(w, i, Checked) else
      match Lookup(w.store, Namespace(), q.key.value, q.fingerprint)
      case Err(_) => To(w, i, Answered(KeyConflict))
      case Ok(None) => To(w, i, Checked)
      case Ok(Some(stored)) => To(w, i, Answered(Cached(stored)))
  }

  function ClaimStep(w: World, i: nat): World
    requires i < |w.processes|
  {
    var q := w.processes[i].request;
    var o := q.observation;
    if !q.authentic then To(w, i, Answered(Unauthorized)) else
      match Claim(w.store, o.tenant, o.asset, o.sequence)
      case None => To(w, i, Answered(ReplayRejected))
      case Some(store) =>
        To(w, i, Claimed).(store := store, claims := w.claims + [ClaimEntry(i, SequenceKey(o), o.sequence)])
  }

  function AppendStep(w: World, i: nat): World
    requires i < |w.processes|
  {
    To(w, i, Appended).(ledger := w.ledger + [LedgerEntry(i, w.processes[i].request.observation)])
  }

  function SaveStep(w: World, i: nat): World
    requires i < |w.processes|
  {
    var q := w.processes[i].request;
    if q.key.None? then To(w, i, Answered(Accepted)) else
      match Save(w.store, Namespace(), q.key.value, q.fingerprint, q.observation)
      case Err(_) => To(w, i, Answered(KeyConflict))
      case Ok(store) => To(w, i, Answered(Accepted)).(store := store)
  }

  function Advance(w: World, i: nat): World
    requires i < |w.processes|
  {
    match w.processes[i].phase
    case Arrived => LookupStep(w, i)
    case Checked => ClaimStep(w, i)
    case Claimed => AppendStep(w, i)
    case Appended => SaveStep(w, i)
    case Answered(_) => w
  }

  function Apply(w: World, e: Event): World {
    match e
    case Arrive(q) => w.(processes := w.processes + [Process(q, Arrived)])
    case Run(i) => if i < |w.processes| then Advance(w, i) else w
  }

  function Initial(): World { World(Store(map[], map[]), [], [], []) }

  function History(events: seq<Event>): World {
    if events == [] then Initial() else Apply(History(events[..|events| - 1]), events[|events| - 1])
  }

  // ---------- The invariant ----------

  ghost predicate ClaimsIncrease(w: World) {
    forall a, b :: 0 <= a < b < |w.claims| && w.claims[a].key == w.claims[b].key ==> w.claims[a].sequence < w.claims[b].sequence
  }

  // The stored counter is at or above every claim for its key.
  ghost predicate CountersCover(w: World) {
    forall c :: c in w.claims ==> c.key in w.store.sequences && c.sequence <= w.store.sequences[c.key]
  }

  predicate PastClaim(p: Phase) { p != Arrived && p != Checked }

  predicate PastAppend(p: Phase) { PastClaim(p) && p != Claimed }

  ghost predicate ClaimsOwned(w: World) {
    forall c :: c in w.claims ==>
      && c.owner < |w.processes| && PastClaim(w.processes[c.owner].phase)
      && c.key == SequenceKey(w.processes[c.owner].request.observation)
      && c.sequence == w.processes[c.owner].request.observation.sequence
  }

  ghost predicate HasClaim(w: World, i: nat) { exists c :: c in w.claims && c.owner == i }

  ghost predicate HasEntry(w: World, i: nat) { exists l :: l in w.ledger && l.owner == i }

  ghost predicate HoldersClaimed(w: World) {
    && (forall i :: 0 <= i < |w.processes| && w.processes[i].phase == Claimed ==> HasClaim(w, i) && !HasEntry(w, i))
    && (forall l :: l in w.ledger ==> HasClaim(w, l.owner))
  }

  ghost predicate LedgerOwned(w: World) {
    forall l :: l in w.ledger ==>
      && l.owner < |w.processes| && PastAppend(w.processes[l.owner].phase)
      && l.observation == w.processes[l.owner].request.observation
  }

  ghost predicate OneEntryEach(w: World) {
    forall a, b :: 0 <= a < b < |w.ledger| ==> w.ledger[a].owner != w.ledger[b].owner
  }

  // A stored record was written by an accepted request that is on the ledger.
  ghost predicate Wrote(w: World, k: string, l: LedgerEntry) {
    && k in w.store.idempotency && l in w.ledger && l.owner < |w.processes|
    && w.processes[l.owner].phase == Answered(Accepted)
    && w.processes[l.owner].request.key.Some? && k == Compose(Namespace(), w.processes[l.owner].request.key.value)
    && w.store.idempotency[k] == Record(w.processes[l.owner].request.fingerprint, l.observation)
  }

  ghost predicate RecordsWritten(w: World) {
    forall k :: k in w.store.idempotency ==> exists l :: Wrote(w, k, l)
  }

  // What a request has been told is true of the ledger.
  ghost predicate Truthful(w: World, i: nat)
    requires i < |w.processes|
  {
    match w.processes[i].phase
    case Appended => HasEntry(w, i)
    case Answered(Accepted) => HasEntry(w, i)
    case Answered(Cached(o)) => exists l :: l in w.ledger && l.observation == o
    case Answered(Unauthorized) => !HasEntry(w, i)
    case Answered(ReplayRejected) => !HasEntry(w, i)
    case _ => true
  }

  ghost predicate RepliesTrue(w: World) { forall i :: 0 <= i < |w.processes| ==> Truthful(w, i) }

  ghost predicate Ownership(w: World) { ClaimsOwned(w) && HoldersClaimed(w) && LedgerOwned(w) && OneEntryEach(w) }

  ghost predicate Counting(w: World) { ClaimsIncrease(w) && CountersCover(w) }

  ghost predicate Invariant(w: World) { Counting(w) && Ownership(w) && RecordsWritten(w) && RepliesTrue(w) }

  // ---------- Every step keeps it ----------

  // A step that only moves process i to another phase.
  predicate Moves(p: Phase, next: Phase) {
    !p.Answered? && next != Claimed && (PastClaim(p) ==> PastClaim(next)) && (PastAppend(p) ==> PastAppend(next))
  }

  lemma MoveOwnership(w: World, i: nat, phase: Phase)
    requires Ownership(w) && i < |w.processes| && Moves(w.processes[i].phase, phase)
    ensures Ownership(To(w, i, phase))
  {
    var v := To(w, i, phase);
    hide Compose;
    forall j | 0 <= j < |v.processes| && v.processes[j].phase == Claimed ensures HasClaim(v, j) && !HasEntry(v, j) {
      assert w.processes[j].phase == Claimed;
      assert HasClaim(w, j) && !HasEntry(w, j);
    }
    forall l | l in v.ledger ensures HasClaim(v, l.owner) { assert HasClaim(w, l.owner); }
  }

  lemma MoveRecords(w: World, i: nat, phase: Phase)
    requires RecordsWritten(w) && i < |w.processes| && !w.processes[i].phase.Answered?
    ensures RecordsWritten(To(w, i, phase))
  {
    hide Compose;
    var v := To(w, i, phase);
    forall k | k in v.store.idempotency ensures exists l :: Wrote(v, k, l) {
      var l :| Wrote(w, k, l);
      assert Wrote(v, k, l);
    }
  }

  // Replies stay true while the ledger only grows by entries of other owners.
  lemma OthersTrue(w: World, v: World, i: nat)
    requires RepliesTrue(w) && i < |w.processes| && |v.processes| == |w.processes|
    requires forall j :: 0 <= j < |w.processes| && j != i ==> v.processes[j] == w.processes[j]
    requires forall l :: l in w.ledger ==> l in v.ledger
    requires forall l :: l in v.ledger ==> l in w.ledger || l.owner == i
    requires Truthful(v, i)
    ensures RepliesTrue(v)
  {
    forall j | 0 <= j < |v.processes| ensures Truthful(v, j) {
      if j != i {
        assert Truthful(w, j);
        assert HasEntry(w, j) <==> HasEntry(v, j);
      }
    }
  }

  lemma MoveKeeps(w: World, i: nat, phase: Phase)
    requires Invariant(w) && i < |w.processes| && Moves(w.processes[i].phase, phase)
    requires Truthful(To(w, i, phase), i)
    ensures Invariant(To(w, i, phase))
  {
    MoveOwnership(w, i, phase);
    MoveRecords(w, i, phase);
    hide Ownership, RecordsWritten;
    OthersTrue(w, To(w, i, phase), i);
  }

  lemma ArriveKeeps(w: World, q: Request)
    requires Invariant(w)
    ensures Invariant(Apply(w, Arrive(q)))
  {
    var v := Apply(w, Arrive(q));
    hide Compose;
    forall j | 0 <= j < |v.processes| ensures Truthful(v, j) {
      if j < |w.processes| { assert Truthful(w, j); assert HasEntry(w, j) <==> HasEntry(v, j); }
    }
    forall j | 0 <= j < |v.processes| && v.processes[j].phase == Claimed ensures HasClaim(v, j) && !HasEntry(v, j) {
      assert HasClaim(w, j) && !HasEntry(w, j);
    }
    forall l | l in v.ledger ensures HasClaim(v, l.owner) { assert HasClaim(w, l.owner); }
    forall k | k in v.store.idempotency ensures exists l :: Wrote(v, k, l) {
      var l :| Wrote(w, k, l);
      assert Wrote(v, k, l);
    }
  }

  lemma LookupKeeps(w: World, i: nat)
    requires Invariant(w) && i < |w.processes| && w.processes[i].phase == Arrived
    ensures Invariant(LookupStep(w, i))
  {
    var q := w.processes[i].request;
    var v := LookupStep(w, i);
    var phase := v.processes[i].phase;
    if phase.Answered? && phase.reply.Cached? {
      var l :| Wrote(w, Compose(Namespace(), q.key.value), l);
      assert l in v.ledger && l.observation == phase.reply.stored;
    }
    hide Invariant, Compose;
    MoveKeeps(w, i, phase);
  }

  lemma NoEntryYet(w: World, i: nat)
    requires Ownership(w) && i < |w.processes| && !PastAppend(w.processes[i].phase)
    ensures !HasEntry(w, i)
  {
  }

  lemma ClaimedCounting(w: World, i: nat)
    requires Counting(w) && i < |w.processes|
    requires var o := w.processes[i].request.observation; Claim(w.store, o.tenant, o.asset, o.sequence).Some?
    requires w.processes[i].request.authentic
    ensures Counting(ClaimStep(w, i))
  {
    hide Compose;
    var v := ClaimStep(w, i);
    var c := v.claims[|w.claims|];
    assert v.claims == w.claims + [c];
    forall a, b | 0 <= a < b < |v.claims| && v.claims[a].key == v.claims[b].key ensures v.claims[a].sequence < v.claims[b].sequence {
      if b == |w.claims| { assert v.claims[a] in w.claims; }
    }
  }

  lemma ClaimedOwnership(w: World, v: World, i: nat, c: ClaimEntry)
    requires Ownership(w) && i < |w.processes| && w.processes[i].phase == Checked
    requires v.processes == w.processes[i := w.processes[i].(phase := Claimed)] && v.ledger == w.ledger
    requires v.claims == w.claims + [c] && c.owner == i
    requires c.key == SequenceKey(w.processes[i].request.observation) && c.sequence == w.processes[i].request.observation.sequence
    ensures Ownership(v)
  {
    NoEntryYet(w, i);
    hide Compose;
    assert c in v.claims;
    forall j | 0 <= j < |v.processes| && v.processes[j].phase == Claimed ensures HasClaim(v, j) && !HasEntry(v, j) {
      if j != i { assert HasClaim(w, j) && !HasEntry(w, j); }
    }
    forall l | l in v.ledger ensures HasClaim(v, l.owner) { assert HasClaim(w, l.owner); }
  }

  lemma ClaimKeeps(w: World, i: nat)
    requires Invariant(w) && i < |w.processes| && w.processes[i].phase == Checked
    ensures Invariant(ClaimStep(w, i))
  {
    var q := w.processes[i].request;
    var o := q.observation;
    var v := ClaimStep(w, i);
    NoEntryYet(w, i);
    if q.authentic && Claim(w.store, o.tenant, o.asset, o.sequence).Some? {
      ClaimedCounting(w, i);
      ClaimedOwnership(w, v, i, ClaimEntry(i, SequenceKey(o), o.sequence));
      MoveRecords(w, i, Claimed);
      assert RecordsWritten(v) by { SameRecords(To(w, i, Claimed), v); }
      hide Counting, Ownership, RecordsWritten, Compose;
      OthersTrue(w, v, i);
    } else {
      hide Invariant, Ownership, Compose;
      MoveKeeps(w, i, v.processes[i].phase);
    }
  }

  lemma SameRecords(w: World, v: World)
    requires RecordsWritten(w) && v.store.idempotency == w.store.idempotency && v.ledger == w.ledger && v.processes == w.processes
    ensures RecordsWritten(v)
  {
    hide Compose;
    forall k | k in v.store.idempotency ensures exists l :: Wrote(v, k, l) {
      var l :| Wrote(w, k, l);
      assert Wrote(v, k, l);
    }
  }

  lemma AppendedOwnership(w: World, i: nat)
    requires Ownership(w) && i < |w.processes| && w.processes[i].phase == Claimed
    ensures Ownership(AppendStep(w, i)) && HasEntry(AppendStep(w, i), i)
  {
    var v := AppendStep(w, i);
    var l := LedgerEntry(i, w.processes[i].request.observation);
    hide Compose;
    assert v.ledger == w.ledger + [l] && l in v.ledger;
    assert HasClaim(w, i) && !HasEntry(w, i);
    forall j | 0 <= j < |v.processes| && v.processes[j].phase == Claimed ensures HasClaim(v, j) && !HasEntry(v, j) {
      assert HasClaim(w, j) && !HasEntry(w, j);
    }
    forall m | m in v.ledger ensures HasClaim(v, m.owner) { assert HasClaim(w, m.owner); }
    forall a, b | 0 <= a < b < |v.ledger| ensures v.ledger[a].owner != v.ledger[b].owner {
      if b == |w.ledger| { assert v.ledger[a] in w.ledger; }
    }
  }

  lemma AppendedRecords(w: World, i: nat)
    requires RecordsWritten(w) && i < |w.processes| && w.processes[i].phase == Claimed
    ensures RecordsWritten(AppendStep(w, i))
  {
    var v := AppendStep(w, i);
    hide Compose;
    forall k | k in v.store.idempotency ensures exists l :: Wrote(v, k, l) {
      var l :| Wrote(w, k, l);
      assert Wrote(v, k, l);
    }
  }

  lemma AppendKeeps(w: World, i: nat)
    requires Invariant(w) && i < |w.processes| && w.processes[i].phase == Claimed
    ensures Invariant(AppendStep(w, i))
  {
    AppendedOwnership(w, i);
    AppendedRecords(w, i);
    hide Ownership, RecordsWritten;
    OthersTrue(w, AppendStep(w, i), i);
  }

  lemma SavedRecords(w: World, i: nat)
    requires RecordsWritten(w) && LedgerOwned(w) && i < |w.processes| && w.processes[i].phase == Appended && HasEntry(w, i)
    requires var q := w.processes[i].request;
             q.key.Some? && Save(w.store, Namespace(), q.key.value, q.fingerprint, q.observation).Ok?
    ensures RecordsWritten(SaveStep(w, i))
  {
    var q := w.processes[i].request;
    var v := SaveStep(w, i);
    var key := Compose(Namespace(), q.key.value);
    hide Compose;
    forall k | k in v.store.idempotency ensures exists l :: Wrote(v, k, l) {
      if k == key {
        var l :| l in w.ledger && l.owner == i;
        assert Wrote(v, k, l);
      } else {
        var l :| Wrote(w, k, l);
        assert Wrote(v, k, l);
      }
    }
  }

  predicate Saves(w: World, q: Request) {
    q.key.Some? && Save(w.store, Namespace(), q.key.value, q.fingerprint, q.observation).Ok?
  }

  lemma SaveShape(w: World, i: nat)
    requires i < |w.processes|
    ensures var v, q := SaveStep(w, i), w.processes[i].request;
            if Saves(w, q) then v == To(w, i, Answered(Accepted)).(store := v.store) && v.store.sequences == w.store.sequences
            else v == To(w, i, Answered(if q.key.None? then Accepted else KeyConflict))
  {
    hide Compose;
  }

  lemma SavedShape(w: World, i: nat)
    requires i < |w.processes| && Saves(w, w.processes[i].request)
    ensures var v, u := SaveStep(w, i), To(w, i, Answered(Accepted));
            && v.claims == u.claims == w.claims && v.ledger == u.ledger == w.ledger && v.processes == u.processes
            && v.store.sequences == w.store.sequences
            && v.processes == w.processes[i := w.processes[i].(phase := Answered(Accepted))]
  {
    SaveShape(w, i);
    hide SaveStep, Saves;
  }

  lemma SavedReplies(w: World, i: nat)
    requires Invariant(w) && i < |w.processes| && w.processes[i].phase == Appended && Saves(w, w.processes[i].request)
    ensures RepliesTrue(SaveStep(w, i)) && HasEntry(w, i)
  {
    SavedShape(w, i);
    assert Truthful(w, i);
    hide RecordsWritten, Ownership, Counting, Compose, SaveStep, Saves;
    OthersTrue(w, SaveStep(w, i), i);
  }

  lemma SavedKeeps(w: World, i: nat)
    requires Invariant(w) && i < |w.processes| && w.processes[i].phase == Appended && Saves(w, w.processes[i].request)
    ensures Invariant(SaveStep(w, i))
  {
    SavedReplies(w, i);
    SavedShape(w, i);
    SavedRecords(w, i);
    hide RecordsWritten, RepliesTrue, Compose, SaveStep, Saves, Save, To;
    MoveOwnership(w, i, Answered(Accepted));
    SameOwnership(To(w, i, Answered(Accepted)), SaveStep(w, i));
  }

  lemma SaveKeeps(w: World, i: nat)
    requires Invariant(w) && i < |w.processes| && w.processes[i].phase == Appended
    ensures Invariant(SaveStep(w, i))
  {
    assert Truthful(w, i);
    SaveShape(w, i);
    hide Invariant, Compose, SaveStep, Saves;
    if Saves(w, w.processes[i].request) {
      SavedKeeps(w, i);
    } else {
      MoveKeeps(w, i, Answered(if w.processes[i].request.key.None? then Accepted else KeyConflict));
    }
  }

  lemma SameOwnership(w: World, v: World)
    requires Ownership(w) && v.claims == w.claims && v.ledger == w.ledger && v.processes == w.processes
    ensures Ownership(v)
  {
    hide Compose;
    forall j | 0 <= j < |v.processes| && v.processes[j].phase == Claimed ensures HasClaim(v, j) && !HasEntry(v, j) {
      assert HasClaim(w, j) && !HasEntry(w, j);
    }
    forall l | l in v.ledger ensures HasClaim(v, l.owner) { assert HasClaim(w, l.owner); }
  }

  lemma ApplyKeeps(w: World, e: Event)
    requires Invariant(w)
    ensures Invariant(Apply(w, e))
  {
    hide Invariant, LookupStep, ClaimStep, AppendStep, SaveStep;
    match e
    case Arrive(q) => ArriveKeeps(w, q);
    case Run(i) =>
      if i < |w.processes| {
        match w.processes[i].phase
        case Arrived => LookupKeeps(w, i);
        case Checked => ClaimKeeps(w, i);
        case Claimed => AppendKeeps(w, i);
        case Appended => SaveKeeps(w, i);
        case Answered(_) =>
      }
  }

  lemma InitialKeeps()
    ensures Invariant(Initial())
  {
  }

  lemma {:induction false} HistoryKeeps(events: seq<Event>)
    ensures Invariant(History(events))
  {
    hide Invariant, Apply, Initial;
    if events == [] {
      InitialKeeps();
    } else {
      HistoryKeeps(events[..|events| - 1]);
      ApplyKeeps(History(events[..|events| - 1]), events[|events| - 1]);
    }
  }

  // ---------- What holds of every run ----------

  // The sequences claimed under one composed key strictly increase.
  lemma ClaimsStrictlyIncrease(events: seq<Event>, a: nat, b: nat)
    requires a < b < |History(events).claims| && History(events).claims[a].key == History(events).claims[b].key
    ensures History(events).claims[a].sequence < History(events).claims[b].sequence
  {
    HistoryKeeps(events);
    hide History;
  }

  // Every stored counter is a sequence that was claimed.
  ghost predicate CountersClaimed(w: World) {
    forall k :: k in w.store.sequences ==> exists c :: c in w.claims && c.key == k && c.sequence == w.store.sequences[k]
  }

  // A step leaves claims and counters alone, or logs one claim and stores its sequence.
  lemma ClaimsGrow(w: World, e: Event)
    ensures var v := Apply(w, e);
            || (v.claims == w.claims && v.store.sequences == w.store.sequences)
            || (|v.claims| == |w.claims| + 1 && v.claims[..|w.claims|] == w.claims
                && v.store.sequences == w.store.sequences[v.claims[|w.claims|].key := v.claims[|w.claims|].sequence])
  {
    hide Compose;
  }

  lemma LoggedClaim(w: World, v: World)
    requires CountersClaimed(w) && |v.claims| == |w.claims| + 1 && v.claims[..|w.claims|] == w.claims
    requires v.store.sequences == w.store.sequences[v.claims[|w.claims|].key := v.claims[|w.claims|].sequence]
    ensures CountersClaimed(v)
  {
    var last := v.claims[|w.claims|];
    assert v.claims == w.claims + [last];
    forall k | k in v.store.sequences ensures exists c :: c in v.claims && c.key == k && c.sequence == v.store.sequences[k] {
      if k == last.key {
        assert last in v.claims;
      } else {
        var c :| c in w.claims && c.key == k && c.sequence == w.store.sequences[k];
        assert c in v.claims;
      }
    }
  }

  lemma {:induction false} HistoryClaimed(events: seq<Event>)
    ensures CountersClaimed(History(events))
  {
    hide Apply;
    if events != [] {
      var w, e := History(events[..|events| - 1]), events[|events| - 1];
      HistoryClaimed(events[..|events| - 1]);
      ClaimsGrow(w, e);
      if Apply(w, e).claims != w.claims { LoggedClaim(w, Apply(w, e)); }
    }
  }

  // A claim succeeds exactly when its sequence is above every one claimed under the composed key.
  lemma ClaimIff(events: seq<Event>, o: Observation)
    ensures Claim(History(events).store, o.tenant, o.asset, o.sequence).Some? <==>
      forall c :: c in History(events).claims && c.key == SequenceKey(o) ==> c.sequence < o.sequence
  {
    HistoryClaimed(events);
    HistoryKeeps(events);
    hide History, Ownership, RecordsWritten, RepliesTrue, ClaimsIncrease, Compose;
  }

  ghost predicate ClaimOf(w: World, i: nat, l: LedgerEntry) {
    i < |w.claims| && w.claims[i] == ClaimEntry(l.owner, SequenceKey(l.observation), l.observation.sequence)
  }

  lemma EntryClaimed(w: World, l: LedgerEntry)
    requires Ownership(w) && l in w.ledger
    ensures exists i :: ClaimOf(w, i, l)
  {
    hide Compose, OneEntryEach;
    assert HasClaim(w, l.owner);
    var c :| c in w.claims && c.owner == l.owner;
    var i :| 0 <= i < |w.claims| && w.claims[i] == c;
    assert ClaimOf(w, i, l);
  }

  lemma EntriesDiffer(w: World, a: nat, b: nat)
    requires Invariant(w) && a < |w.ledger| && b < |w.ledger| && a != b
    ensures var x, y := w.ledger[a].observation, w.ledger[b].observation;
            SequenceKey(x) != SequenceKey(y) || x.sequence != y.sequence
  {
    var l, m := w.ledger[a], w.ledger[b];
    hide RecordsWritten, RepliesTrue, ClaimsOwned, HoldersClaimed, LedgerOwned, CountersCover, SequenceKey;
    assert l.owner != m.owner;
    EntryClaimed(w, l);
    EntryClaimed(w, m);
    var i :| ClaimOf(w, i, l);
    var j :| ClaimOf(w, j, m);
    assert i != j;
  }

  // No run puts the same tenant, asset and sequence on the ledger twice.
  lemma AtMostOnce(events: seq<Event>, a: nat, b: nat)
    requires a < b < |History(events).ledger|
    ensures var x, y := History(events).ledger[a].observation, History(events).ledger[b].observation;
            !(x.tenant == y.tenant && x.asset == y.asset && x.sequence == y.sequence)
  {
    HistoryKeeps(events);
    hide History, Invariant, Compose;
    EntriesDiffer(History(events), a, b);
  }

  ghost predicate FingerprintsKept(w: World, v: World) {
    forall k :: k in w.store.idempotency ==>
      k in v.store.idempotency && v.store.idempotency[k].fingerprint == w.store.idempotency[k].fingerprint
  }

  lemma ApplyKeepsFingerprints(w: World, e: Event)
    ensures FingerprintsKept(w, Apply(w, e))
  {
    hide Compose;
  }

  // A stored key never changes its fingerprint, whatever runs later.
  lemma {:induction false} FingerprintsFinal(events: seq<Event>, later: seq<Event>)
    ensures FingerprintsKept(History(events), History(events + later))
  {
    hide Apply, Initial;
    if later == [] {
      assert events + later == events;
    } else {
      var some, last := later[..|later| - 1], later[|later| - 1];
      assert (events + later)[..|events + later| - 1] == events + some;
      FingerprintsFinal(events, some);
      ApplyKeepsFingerprints(History(events + some), last);
    }
  }

  // Two requests with one fingerprint report the same sequence of the same asset.
  ghost predicate FingerprintsIdentify(w: World) {
    forall i, j :: 0 <= i < |w.processes| && 0 <= j < |w.processes| && w.processes[i].request.fingerprint == w.processes[j].request.fingerprint ==>
      var x, y := w.processes[i].request.observation, w.processes[j].request.observation;
      SequenceKey(x) == SequenceKey(y) && x.sequence == y.sequence
  }

  lemma NoSecondSave(w: World, i: nat, key: string)
    requires Invariant(w) && FingerprintsIdentify(w) && i < |w.processes| && w.processes[i].phase == Appended
    requires key in w.store.idempotency
    ensures w.store.idempotency[key].fingerprint != w.processes[i].request.fingerprint
  {
    hide Counting, HoldersClaimed, OneEntryEach, Compose, ClaimsOwned;
    var l :| Wrote(w, key, l);
    assert Truthful(w, i);
    var m :| m in w.ledger && m.owner == i;
    var a :| 0 <= a < |w.ledger| && w.ledger[a] == l;
    var b :| 0 <= b < |w.ledger| && w.ledger[b] == m;
    hide Invariant, Ownership, RecordsWritten, RepliesTrue;
    if w.store.idempotency[key].fingerprint == w.processes[i].request.fingerprint { EntriesDiffer(w, a, b); }
  }

  // Only the save step of an appended request writes a record, and only its own.
  lemma OnlySavesWrite(w: World, e: Event, key: string)
    requires key in w.store.idempotency
    ensures key in Apply(w, e).store.idempotency
    ensures Apply(w, e).store.idempotency[key] == w.store.idempotency[key]
         || (e.Run? && e.process < |w.processes| && w.processes[e.process].phase == Appended
             && w.processes[e.process].request.fingerprint == w.store.idempotency[key].fingerprint)
  {
    hide Compose;
  }

  lemma ResponseKept(w: World, e: Event, key: string)
    requires Invariant(w) && FingerprintsIdentify(w) && key in w.store.idempotency
    ensures key in Apply(w, e).store.idempotency && Apply(w, e).store.idempotency[key] == w.store.idempotency[key]
  {
    hide Invariant, FingerprintsIdentify, Apply;
    OnlySavesWrite(w, e, key);
    if e.Run? && e.process < |w.processes| && w.processes[e.process].phase == Appended { NoSecondSave(w, e.process, key); }
  }

  lemma RequestsKept(w: World, e: Event)
    ensures |w.processes| <= |Apply(w, e).processes|
    ensures forall i :: 0 <= i < |w.processes| ==> Apply(w, e).processes[i].request == w.processes[i].request
  {
    hide Compose, Lookup, Save, Claim;
  }

  lemma IdentifiedBefore(w: World, e: Event)
    requires FingerprintsIdentify(Apply(w, e))
    ensures FingerprintsIdentify(w)
  {
    RequestsKept(w, e);
    hide Apply, SequenceKey;
  }

  // Then a stored response is never replaced either.
  lemma {:induction false} ResponsesFinal(events: seq<Event>, later: seq<Event>, key: string)
    requires FingerprintsIdentify(History(events + later)) && key in History(events).store.idempotency
    ensures key in History(events + later).store.idempotency
    ensures History(events + later).store.idempotency[key] == History(events).store.idempotency[key]
    decreases |later|
  {
    hide Apply, Initial, FingerprintsIdentify, Invariant;
    if later == [] {
      assert events + later == events;
    } else {
      var some, last := later[..|later| - 1], later[|later| - 1];
      assert (events + later)[..|events + later| - 1] == events + some;
      IdentifiedBefore(History(events + some), last);
      ResponsesFinal(events, some, key);
      HistoryKeeps(events + some);
      ResponseKept(History(events + some), last, key);
    }
  }

  // An accepted request's key keeps its fingerprint.
  ghost predicate StoredIfAccepted(w: World, p: Process) {
    p.phase == Answered(Accepted) && p.request.key.Some? ==>
      var k := Compose(Namespace(), p.request.key.value);
      k in w.store.idempotency && w.store.idempotency[k].fingerprint == p.request.fingerprint
  }

  ghost predicate AcceptedStored(w: World) {
    forall i :: 0 <= i < |w.processes| ==> StoredIfAccepted(w, w.processes[i])
  }

  lemma ProcessChanges(w: World, e: Event, j: nat)
    requires j < |Apply(w, e).processes|
    ensures var p := Apply(w, e).processes[j];
            p.phase == Arrived || (j < |w.processes| && (p == w.processes[j] || e == Run(j)))
  {
    hide Compose, Lookup, Save, Claim;
  }

  lemma RunStored(w: World, j: nat)
    requires j < |w.processes| && StoredIfAccepted(w, w.processes[j])
    ensures j < |Apply(w, Run(j)).processes| && StoredIfAccepted(Apply(w, Run(j)), Apply(w, Run(j)).processes[j])
  {
    hide Compose;
  }

  lemma ApplyKeepsStored(w: World, e: Event)
    requires AcceptedStored(w)
    ensures AcceptedStored(Apply(w, e))
  {
    hide Compose, Apply;
    ApplyKeepsFingerprints(w, e);
    var v := Apply(w, e);
    forall j | 0 <= j < |v.processes| ensures StoredIfAccepted(v, v.processes[j]) {
      ProcessChanges(w, e, j);
      if e == Run(j) && j < |w.processes| { RunStored(w, j); }
    }
  }

  lemma {:induction false} HistoryStored(events: seq<Event>)
    ensures AcceptedStored(History(events))
  {
    hide Apply;
    if events != [] {
      hide AcceptedStored;
      HistoryStored(events[..|events| - 1]);
      ApplyKeepsStored(History(events[..|events| - 1]), events[|events| - 1]);
    }
  }

  // A retry of an accepted request is answered from the store and changes nothing else.
  lemma RetryIsCached(events: seq<Event>, i: nat, q: Request)
    requires var w := History(events);
             i < |w.processes| && w.processes[i].phase == Answered(Accepted) && w.processes[i].request.key.Some?
             && q.key == w.processes[i].request.key && q.fingerprint == w.processes[i].request.fingerprint
    ensures var w := History(events);
            var v := Apply(Apply(w, Arrive(q)), Run(|w.processes|));
            v.processes[|w.processes|].phase.Answered? && v.processes[|w.processes|].phase.reply.Cached?
            && v.store == w.store && v.ledger == w.ledger && v.claims == w.claims
  {
    HistoryStored(events);
    hide History, Compose;
    assert StoredIfAccepted(History(events), History(events).processes[i]);
  }

  // ---------- A key conflict can be reported too late ----------

  lemma Extend(events: seq<Event>, e: Event)
    ensures History(events + [e]) == Apply(History(events), e)
  {
    assert (events + [e])[..|events|] == events;
  }

  // Both requests take one step.
  function Both(events: seq<Event>): seq<Event> { events + [Run(0)] + [Run(1)] }

  function StepBoth(w: World): World { Apply(Apply(w, Run(0)), Run(1)) }

  lemma HistoryBoth(events: seq<Event>)
    ensures History(Both(events)) == StepBoth(History(events))
  {
    hide History, Apply;
    Extend(events, Run(0));
    Extend(events + [Run(0)], Run(1));
  }

  function Pair(p: Request, q: Request, phase: Phase): seq<Process> { [Process(p, phase), Process(q, phase)] }

  lemma PairArrives(p: Request, q: Request)
    ensures History([Arrive(p), Arrive(q)]) == Initial().(processes := Pair(p, q, Arrived))
  {
    Extend([], Arrive(p));
    Extend([Arrive(p)], Arrive(q));
    assert [] + [Arrive(p)] == [Arrive(p)] && [Arrive(p)] + [Arrive(q)] == [Arrive(p), Arrive(q)];
    assert History([]) == Initial();
  }

  lemma PairChecked(w: World, p: Request, q: Request)
    requires w.processes == Pair(p, q, Arrived) && w.store.idempotency == map[]
    ensures StepBoth(w) == w.(processes := Pair(p, q, Checked))
  {
    hide Compose;
  }

  lemma PairClaims(w: World, p: Request, q: Request)
    requires w.processes == Pair(p, q, Checked) && w.store.sequences == map[] && p.authentic && q.authentic
    requires SequenceKey(p.observation) != SequenceKey(q.observation) || p.observation.sequence < q.observation.sequence
    ensures var v := StepBoth(w);
            v.processes == Pair(p, q, Claimed) && v.store.idempotency == w.store.idempotency && v.ledger == w.ledger
  {
    hide Compose;
  }

  lemma PairAppends(w: World, p: Request, q: Request)
    requires w.processes == Pair(p, q, Claimed)
    ensures var v := StepBoth(w);
            v.processes == Pair(p, q, Appended) && v.store == w.store
            && v.ledger == w.ledger + [LedgerEntry(0, p.observation), LedgerEntry(1, q.observation)]
  {
  }

  lemma PairSaves(w: World, p: Request, q: Request)
    requires w.processes == Pair(p, q, Appended) && w.store.idempotency == map[]
    requires p.key.Some? && q.key == p.key && p.fingerprint != q.fingerprint
    ensures var v := StepBoth(w);
            v.ledger == w.ledger && v.processes == [Process(p, Answered(Accepted)), Process(q, Answered(KeyConflict))]
  {
    hide Compose;
  }

  // Two requests that reuse one key can both pass the lookup and reach the ledger before the
  // second one is told of the conflict.
  lemma ConflictAfterAppend(p: Request, q: Request)
    requires p.key.Some? && q.key == p.key && p.fingerprint != q.fingerprint && p.authentic && q.authentic
    requires SequenceKey(p.observation) != SequenceKey(q.observation) || p.observation.sequence < q.observation.sequence
    ensures exists events :: var w := History(events);
      w.ledger == [LedgerEntry(0, p.observation), LedgerEntry(1, q.observation)]
      && w.processes == [Process(p, Answered(Accepted)), Process(q, Answered(KeyConflict))]
  {
    var e0 := [Arrive(p), Arrive(q)];
    var e1 := Both(e0);
    var e2 := Both(e1);
    var e3 := Both(e2);
    var e4 := Both(e3);
    hide History, StepBoth, Both, Pair, SequenceKey;
    PairArrives(p, q);
    HistoryBoth(e0);
    PairChecked(History(e0), p, q);
    HistoryBoth(e1);
    PairClaims(History(e1), p, q);
    HistoryBoth(e2);
    PairAppends(History(e2), p, q);
    HistoryBoth(e3);
    PairSaves(History(e3), p, q);
    assert History(e4).ledger == [LedgerEntry(0, p.observation), LedgerEntry(1, q.observation)];
  }

  // ---------- The handler, run without interruption ----------

  function Observations(ledger: seq<LedgerEntry>): (r: seq<Observation>)
    ensures |r| == |ledger| && forall i :: 0 <= i < |r| ==> r[i] == ledger[i].observation
  {
    if ledger == [] then [] else Observations(ledger[..|ledger| - 1]) + [ledger[|ledger| - 1].observation]
  }

  // The machine run that handles one new request in one go.
  function Handled(w: World, q: Request): World {
    var i := |w.processes|;
    Apply(Apply(Apply(Apply(Apply(w, Arrive(q)), Run(i)), Run(i)), Run(i)), Run(i))
  }

  function ReplyTo(w: World, i: nat): Option<Reply> {
    if i < |w.processes| && w.processes[i].phase.Answered? then Some(w.processes[i].phase.reply) else None
  }

  // The lookup and the claim as the handler sees them.
  function LookedUp(w: World, q: Request): Result<Option<Observation>, Error> {
    if q.key.None? then Ok(None) else Lookup(w.store, Namespace(), q.key.value, q.fingerprint)
  }

  function Taken(w: World, q: Request): Option<Store<Observation>> {
    Claim(w.store, q.observation.tenant, q.observation.asset, q.observation.sequence)
  }

  lemma AnsweredStays(w: World, i: nat)
    requires i < |w.processes| && w.processes[i].phase.Answered?
    ensures Apply(w, Run(i)) == w
  {
  }

  lemma HandledEarly(w: World, q: Request)
    requires LookedUp(w, q) != Ok(None) || !q.authentic || Taken(w, q).None?
    ensures var v := Handled(w, q);
            && v.store == w.store && v.ledger == w.ledger
            && ReplyTo(v, |w.processes|) == Some(
                 match LookedUp(w, q)
                 case Err(_) => KeyConflict
                 case Ok(Some(o)) => Cached(o)
                 case Ok(None) => if q.authentic then ReplayRejected else Unauthorized)
  {
    var i, u := |w.processes|, Apply(w, Arrive(q));
    var v := Apply(u, Run(i));
    assert v == LookupStep(u, i);
    if LookedUp(w, q) != Ok(None) {
      hide Apply, Compose;
      AnsweredStays(v, i);
    } else {
      assert v == To(u, i, Checked);
      var x := Apply(v, Run(i));
      assert x == ClaimStep(v, i) && x.processes[i].phase.Answered?;
      hide Apply, Compose;
      AnsweredStays(x, i);
    }
  }

  lemma HandledLate(w: World, q: Request)
    requires LookedUp(w, q) == Ok(None) && q.authentic && Taken(w, q).Some?
    ensures var v, store := Handled(w, q), Taken(w, q).value;
            var saved := if q.key.None? then Ok(store) else Save(store, Namespace(), q.key.value, q.fingerprint, q.observation);
            && v.ledger == w.ledger + [LedgerEntry(|w.processes|, q.observation)]
            && v.store == (if saved.Ok? then saved.value else store)
            && ReplyTo(v, |w.processes|) == Some(if saved.Ok? then Accepted else KeyConflict)
  {
    var i, u := |w.processes|, Apply(w, Arrive(q));
    var v := Apply(u, Run(i));
    assert v == LookupStep(u, i) == To(u, i, Checked);
    var x := Apply(v, Run(i));
    assert x == ClaimStep(v, i) && x.processes[i].phase == Claimed && x.store == Taken(w, q).value;
    var y := Apply(x, Run(i));
    assert y == AppendStep(x, i);
    var z := Apply(y, Run(i));
    assert z == SaveStep(y, i) && Handled(w, q) == z;
    hide Apply, Compose, Handled, LookupStep, ClaimStep;
  }

  lemma ObservationsStep(w: World, q: Request)
    ensures Observations(w.ledger + [LedgerEntry(|w.processes|, q.observation)]) == Observations(w.ledger) + [q.observation]
  {
  }

  class Service {
    const state: PersistentState<Observation>
    var ledger: seq<Observation>

    constructor ()
      ensures state.Contents() == Initial().store && ledger == []
    {
      state := new PersistentState<Observation>();
      ledger := [];
    }

    // The ghost world stands for the interleaved history so far.
    method Accept(q: Request, ghost w: World) returns (reply: Reply)
      requires state.Contents() == w.store && ledger == Observations(w.ledger)
      modifies this, state
      ensures state.Contents() == Handled(w, q).store && ledger == Observations(Handled(w, q).ledger)
      ensures ReplyTo(Handled(w, q), |w.processes|) == Some(reply)
    {
      if LookedUp(w, q) != Ok(None) || !q.authentic || Taken(w, q).None? { HandledEarly(w, q); } else { HandledLate(w, q); }
      ObservationsStep(w, q);
      hide Compose, Handled, Observations, ReplyTo, Lookup, Save, Claim;
      if q.key.Some? {
        var found := state.GetIdempotent(Namespace(), q.key.value, q.fingerprint);
        if found.Err? { return KeyConflict; }
        if found.value.Some? { return Cached(found.value.value); }
      }
      if !q.authentic { return Unauthorized; }
      var claimed := state.ClaimSequence(q.observation.tenant, q.observation.asset, q.observation.sequence);
      if !claimed { return ReplayRejected; }
      ledger := ledger + [q.observation];
      if q.key.Some? {
        var saved := state.SaveIdempotent(Namespace(), q.key.value, q.fingerprint, q.observation);
        if saved.Err? { return KeyConflict; }
      }
      reply := Accepted;
    }
  }
}
