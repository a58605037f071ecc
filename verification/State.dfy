// The locked state store. Every method is one locked region.
module State {
  import opened Wrappers

  datatype Record<R> = Record(fingerprint: string, response: R)

  datatype Store<R> = Store(idempotency: map<string, Record<R>>, sequences: map<string, int>)

  // Reusing a key for a different request.
  datatype Error = Conflict

  function Compose(a: string, b: string): string { a + ":" + b }

  function Lookup<R>(s: Store<R>, namespace: string, key: string, fingerprint: string): Result<Option<R>, Error> {
    var k := Compose(namespace, key);
    if k !in s.idempotency then Ok(None)
    else if s.idempotency[k].fingerprint != fingerprint then Err(Conflict)
    else Ok(Some(s.idempotency[k].response))
  }

  function Save<R>(s: Store<R>, namespace: string, key: string, fingerprint: string, response: R): Result<Store<R>, Error> {
    var k := Compose(namespace, key);
    if k in s.idempotency && s.idempotency[k].fingerprint != fingerprint then Err(Conflict)
    else Ok(s.(idempotency := s.idempotency[k := Record(fingerprint, response)]))
  }

  // None when the sequence is not above the last one claimed.
  function Claim<R>(s: Store<R>, tenant: string, asset: string, sequence: int): Option<Store<R>> {
    var k := Compose(tenant, asset);
    if k in s.sequences && sequence <= s.sequences[k] then None
    else Some(s.(sequences := s.sequences[k := sequence]))
  }

  class PersistentState<R> {
    var idempotency: map<string, Record<R>>
    var sequences: map<string, int>

    ghost function Contents(): Store<R>
      reads this
    {
      Store(idempotency, sequences)
    }

    constructor ()
      ensures Contents() == Store(map[], map[])
    {
      idempotency, sequences := map[], map[];
    }

    method GetIdempotent(namespace: string, key: string, fingerprint: string) returns (r: Result<Option<R>, Error>)
      ensures r == Lookup(Contents(), namespace, key, fingerprint)
    {
      var k := Compose(namespace, key);
      if k !in idempotency { return Ok(None); }
      var record := idempotency[k];
      if record.fingerprint != fingerprint { return Err(Conflict); }
      r := Ok(Some(record.response));
    }

    // A conflict leaves the store as it was.
    method SaveIdempotent(namespace: string, key: string, fingerprint: string, response: R) returns (r: Result<(), Error>)
      modifies this
      ensures r.Ok? <==> Save(old(Contents()), namespace, key, fingerprint, response).Ok?
      ensures r.Ok? ==> Contents() == Save(old(Contents()), namespace, key, fingerprint, response).value
      ensures r.Err? ==> Contents() == old(Contents())
    {
      var k := Compose(namespace, key);
      if k in idempotency && idempotency[k].fingerprint != fingerprint { return Err(Conflict); }
      idempotency := idempotency[k := Record(fingerprint, response)];
      r := Ok(());
    }

    method ClaimSequence(tenant: string, asset: string, sequence: int) returns (claimed: bool)
      modifies this
      ensures claimed <==> Claim(old(Contents()), tenant, asset, sequence).Some?
      ensures claimed ==> Contents() == Claim(old(Contents()), tenant, asset, sequence).value
      ensures !claimed ==> Contents() == old(Contents())
    {
      var k := Compose(tenant, asset);
      if k in sequences {
        if sequence <= sequences[k] { return false; }
      }
      sequences := sequences[k := sequence];
      claimed := true;
    }
  }

  // ---------- Composed keys ----------

  // The position of the first separator.
  function Split(k: string): nat { if k == [] || k[0] == ':' then 0 else 1 + Split(k[1..]) }

  lemma {:induction false} SplitCompose(a: string, b: string)
    requires ':' !in a
    ensures Split(Compose(a, b)) == |a|
  {
    if a != [] {
      SplitCompose(a[1..], b);
      assert Compose(a, b)[1..] == Compose(a[1..], b);
    }
  }

  // A composed key names one pair when the first part has no separator.
  lemma ComposeInjective(a: string, b: string, c: string, d: string)
    requires Compose(a, b) == Compose(c, d) && ':' !in a && ':' !in c
    ensures a == c && b == d
  {
    SplitCompose(a, b);
    SplitCompose(c, d);
    var k := Compose(a, b);
    assert a == k[..|a|] && c == k[..|c|] && b == k[|a| + 1..] && d == k[|c| + 1..];
  }

  // A separator and the text m after it are moved from the second part to the first.
  predicate Shifts(a: string, b: string, c: string, d: string, m: string) { c == Compose(a, m) && b == Compose(m, d) }

  lemma ShiftsCompose(a: string, b: string, c: string, d: string, m: string)
    requires Shifts(a, b, c, d, m)
    ensures Compose(a, b) == Compose(c, d)
  {
    assert (a + ":") + (m + ":" + d) == (a + ":" + m) + ":" + d;
  }

  lemma LongerShifts(a: string, b: string, c: string, d: string) returns (m: string)
    requires Compose(a, b) == Compose(c, d) && |a| < |c|
    ensures Shifts(a, b, c, d, m)
  {
    var k := Compose(a, b);
    m := c[|a| + 1..];
    assert a == k[..|a|] == c[..|a|] && k[|a|] == ':' == c[|a|];
    assert c == c[..|a|] + [c[|a|]] + m;
    assert b == k[|a| + 1..] == (c + ":" + d)[|a| + 1..] == m + ":" + d;
  }

  // Two pairs share a composed key exactly when they are equal or differ by such a move.
  lemma ComposeIff(a: string, b: string, c: string, d: string)
    ensures Compose(a, b) == Compose(c, d) <==>
            (a == c && b == d) || (exists m :: Shifts(a, b, c, d, m)) || (exists m :: Shifts(c, d, a, b, m))
  {
    if Compose(a, b) == Compose(c, d) {
      if |a| < |c| {
        var m := LongerShifts(a, b, c, d);
      } else if |c| < |a| {
        var m := LongerShifts(c, d, a, b);
      } else {
        var k := Compose(a, b);
        assert a == k[..|a|] && c == k[..|c|] && b == k[|a| + 1..] && d == k[|c| + 1..];
      }
    }
    if m :| Shifts(a, b, c, d, m) { ShiftsCompose(a, b, c, d, m); }
    if m :| Shifts(c, d, a, b, m) { ShiftsCompose(c, d, a, b, m); }
  }

  // Moving a separator from one part to the other gives the same key.
  lemma ComposeAmbiguous(a: string, b: string, c: string)
    ensures Compose(Compose(a, b), c) == Compose(a, Compose(b, c)) && Compose(a, b) != a
  {
    assert (a + ":" + b) + ":" + c == a + ":" + (b + ":" + c);
    assert |Compose(a, b)| > |a|;
  }
}
