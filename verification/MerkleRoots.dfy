// Which lists of leaves share a root. The tree hashes leaves and inner nodes alike and
// pairs the last node of an odd level with itself, so a list can be written in several ways.
module MerkleRoots {
  import opened Wrappers
  import opened Merkle

  // The node that stands at position i once every odd end of a level of n nodes is spelled out.
  function Slot(n: nat, i: nat): (s: nat)
    requires 0 < n
    ensures s < n
    decreases n
  {
    if n == 1 then 0
    else
      var s := 2 * Slot(Halved(n), i / 2) + i % 2;
      if s < n then s else n - 1
  }

  // The full level: as many nodes as the depth has room for.
  function Fill(level: seq<Bytes>): (r: seq<Bytes>)
    requires level != []
    ensures |r| == Power2(Depth(|level|))
  {
    seq(Power2(Depth(|level|)), i requires 0 <= i => level[Slot(|level|, i)])
  }

  // The k-th level above.
  function Up(hash: Bytes -> Bytes, level: seq<Bytes>, k: nat): (r: seq<Bytes>)
    requires level != [] && k <= Depth(|level|)
    ensures r != [] && Depth(|r|) == Depth(|level|) - k
    decreases k
  {
    if k == 0 then level else Up(hash, NextLevel(hash, level), k - 1)
  }

  lemma {:induction false} PowerPositive(k: nat)
    ensures Power2(k) > 0 && (k == 0 ==> Power2(k) == 1)
  {
    if k > 0 { PowerPositive(k - 1); }
  }

  lemma {:induction false} DepthOfPower(k: nat)
    ensures Power2(k) > 0 && Depth(Power2(k)) == k && (k > 0 ==> Halved(Power2(k)) == Power2(k - 1))
  {
    if k > 0 {
      DepthOfPower(k - 1);
    }
  }

  lemma FillAt(level: seq<Bytes>, i: nat)
    requires level != [] && i < Power2(Depth(|level|))
    ensures Fill(level)[i] == level[Slot(|level|, i)]
  {
  }

  lemma SlotPair(n: nat, k: nat, s: nat)
    requires n > 1 && s == Slot(Halved(n), k)
    ensures 2 * s < n && Slot(n, 2 * k) == 2 * s && Slot(n, 2 * k + 1) == if 2 * s + 1 < n then 2 * s + 1 else 2 * s
  {
    assert (2 * k) / 2 == k && (2 * k + 1) / 2 == k;
  }

  lemma FillPair(level: seq<Bytes>, k: nat, s: nat)
    requires |level| > 1 && s == Slot(Halved(|level|), k) && 2 * k + 1 < Power2(Depth(|level|))
    ensures 2 * s < |level| && Fill(level)[2 * k] == level[2 * s] && Fill(level)[2 * k + 1] == Partner(level, 2 * s)
  {
    hide Fill, Slot, Depth, Power2, Halved;
    FillAt(level, 2 * k);
    FillAt(level, 2 * k + 1);
    SlotPair(|level|, k, s);
  }

  lemma LevelAt(hash: Bytes -> Bytes, level: seq<Bytes>, k: nat)
    requires k < Halved(|level|)
    ensures 2 * k < |level| && NextLevel(hash, level)[k] == hash(level[2 * k] + Partner(level, 2 * k))
    ensures level[2 * k] + Partner(level, 2 * k) in LevelInputs(level)
  {
  }

  // The full level has twice the nodes of the one above it.
  ghost predicate Doubled(level: seq<Bytes>, full: seq<Bytes>, m: nat) {
    && |level| > 1 && Halved(|level|) > 0 && full == Fill(level) && |full| == 2 * m && Halved(|full|) == m
    && m == Power2(Depth(Halved(|level|))) && 2 * m == Power2(Depth(|level|))
  }

  lemma FillDoubles(level: seq<Bytes>) returns (full: seq<Bytes>, m: nat)
    requires |level| > 1
    ensures full == Fill(level) && Doubled(level, full, m)
  {
    DepthOfPower(Depth(|level|));
    full, m := Fill(level), Power2(Depth(|level|) - 1);
  }

  // Position k of the level above the full one.
  lemma FillNextAt(hash: Bytes -> Bytes, level: seq<Bytes>, full: seq<Bytes>, m: nat, k: nat)
    requires Doubled(level, full, m) && k < m
    ensures NextLevel(hash, full)[k] == Fill(NextLevel(hash, level))[k]
    ensures full[2 * k] + Partner(full, 2 * k) in LevelInputs(level)
  {
    hide Fill, Slot, NextLevel, LevelInputs, Power2, Depth, Halved;
    var next, s := NextLevel(hash, level), Slot(Halved(|level|), k);
    LevelAt(hash, full, k);
    LevelAt(hash, level, s);
    FillPair(level, k, s);
    FillAt(next, k);
  }

  // Spelling out commutes with going up.
  lemma FillNext(hash: Bytes -> Bytes, level: seq<Bytes>)
    requires |level| > 1
    ensures NextLevel(hash, Fill(level)) == Fill(NextLevel(hash, level))
  {
    hide Fill, Slot, NextLevel, Power2, Depth, Halved;
    var full, m := FillDoubles(level);
    assert Halved(|level|) > 0;
    var above, target := NextLevel(hash, full), Fill(NextLevel(hash, level));
    assert |above| == m == |target|;
    forall k | 0 <= k < m ensures above[k] == target[k] { FillNextAt(hash, level, full, m, k); }
  }

  lemma FillInputs(hash: Bytes -> Bytes, level: seq<Bytes>)
    requires |level| > 1
    ensures LevelInputs(Fill(level)) <= LevelInputs(level)
  {
    hide Fill, Slot, NextLevel, Power2, Depth, Halved, LevelInputs;
    var full, m := FillDoubles(level);
    forall x | x in LevelInputs(full) ensures x in LevelInputs(level) {
      var k := InputOf(full, x);
      FillNextAt(hash, level, full, m, k);
    }
  }

  lemma InputOf(level: seq<Bytes>, x: Bytes) returns (k: nat)
    requires x in LevelInputs(level)
    ensures k < Halved(|level|) && 2 * k < |level| && x == level[2 * k] + Partner(level, 2 * k)
  {
    k :| 0 <= k < Halved(|level|) && x == level[2 * k] + Partner(level, 2 * k);
  }

  lemma {:induction false} FillKeepsRoot(hash: Bytes -> Bytes, level: seq<Bytes>)
    requires level != []
    ensures Fill(level) != [] && Root(hash, Fill(level)) == Root(hash, level)
    ensures TreeInputs(hash, Fill(level)) <= TreeInputs(hash, level)
    decreases |level|
  {
    DepthOfPower(Depth(|level|));
    if |level| == 1 {
      assert Fill(level) == level;
    } else {
      FillNext(hash, level);
      FillInputs(hash, level);
      FillKeepsRoot(hash, NextLevel(hash, level));
      hide Fill, NextLevel, LevelInputs;
      assert |Fill(level)| > 1 by { PowerPositive(Depth(|level|) - 1); }
    }
  }

  lemma OneUp(hash: Bytes -> Bytes, level: seq<Bytes>)
    requires |level| > 1
    ensures Root(hash, NextLevel(hash, level)) == Root(hash, level)
    ensures TreeInputs(hash, NextLevel(hash, level)) <= TreeInputs(hash, level)
  {
    hide NextLevel, LevelInputs;
  }

  lemma {:induction false} UpKeepsRoot(hash: Bytes -> Bytes, level: seq<Bytes>, k: nat)
    requires level != [] && k <= Depth(|level|)
    ensures Root(hash, Up(hash, level, k)) == Root(hash, level)
    ensures TreeInputs(hash, Up(hash, level, k)) <= TreeInputs(hash, level)
    decreases k
  {
    hide NextLevel, LevelInputs, Root, TreeInputs;
    if k > 0 {
      OneUp(hash, level);
      UpKeepsRoot(hash, NextLevel(hash, level), k - 1);
    }
  }

  lemma {:induction false} UpDigests(hash: Bytes -> Bytes, level: seq<Bytes>, k: nat)
    requires FixedSize(hash) && AllDigests(level) && level != [] && k <= Depth(|level|)
    ensures AllDigests(Up(hash, level, k))
    decreases k
  {
    hide FixedSize, AllDigests, NextLevel;
    if k > 0 {
      NextLevelDigests(hash, level);
      UpDigests(hash, NextLevel(hash, level), k - 1);
    }
  }

  lemma FillDigests(level: seq<Bytes>)
    requires AllDigests(level) && level != []
    ensures AllDigests(Fill(level))
  {
    hide Slot;
  }

  // Equal roots of two lists of one depth.
  lemma FilledBinds(hash: Bytes -> Bytes, a: seq<Bytes>, u: seq<Bytes>, inputs: set<Bytes>)
    requires a != [] && u != [] && Depth(|a|) == Depth(|u|) && Root(hash, a) == Root(hash, u)
    requires FixedSize(hash) && AllDigests(a) && AllDigests(u) && TreeInputs(hash, a) + TreeInputs(hash, u) <= inputs
    ensures Fill(a) == Fill(u) || CollisionIn(hash, inputs)
  {
    hide Root, Fill, TreeInputs, FixedSize, AllDigests, CollisionIn;
    FillKeepsRoot(hash, a);
    FillKeepsRoot(hash, u);
    FillDigests(a);
    FillDigests(u);
    RootBinds(hash, Fill(a), Fill(u));
    if Fill(a) != Fill(u) { CollisionGrows(hash, TreeInputs(hash, Fill(a)) + TreeInputs(hash, Fill(u)), inputs); }
  }

  // Two lists, the first one with the smaller depth, share a root whenever the first list and the
  // level of the second at its depth spell out alike.
  lemma SpelledAlike(hash: Bytes -> Bytes, a: seq<Bytes>, b: seq<Bytes>)
    requires a != [] && b != [] && Depth(|a|) <= Depth(|b|)
    requires Fill(a) == Fill(Up(hash, b, Depth(|b|) - Depth(|a|)))
    ensures Root(hash, a) == Root(hash, b)
  {
    hide Root, Fill, TreeInputs, Up;
    FillKeepsRoot(hash, a);
    FillKeepsRoot(hash, Up(hash, b, Depth(|b|) - Depth(|a|)));
    UpKeepsRoot(hash, b, Depth(|b|) - Depth(|a|));
  }

  // And only then, for lists of digests, or two different inputs hashed for the two trees collide.
  lemma SharedRootMeans(hash: Bytes -> Bytes, a: seq<Bytes>, b: seq<Bytes>)
    requires FixedSize(hash) && AllDigests(a) && AllDigests(b)
    requires a != [] && b != [] && Depth(|a|) <= Depth(|b|) && Root(hash, a) == Root(hash, b)
    ensures Fill(a) == Fill(Up(hash, b, Depth(|b|) - Depth(|a|))) || CollisionIn(hash, TreeInputs(hash, a) + TreeInputs(hash, b))
  {
    hide Root, Fill, TreeInputs, FixedSize, AllDigests, CollisionIn, Up;
    var k := Depth(|b|) - Depth(|a|);
    UpKeepsRoot(hash, b, k);
    UpDigests(hash, b, k);
    FilledBinds(hash, a, Up(hash, b, k), TreeInputs(hash, a) + TreeInputs(hash, b));
  }

  // Without a collision that is the exact condition.
  lemma SameRootIff(hash: Bytes -> Bytes, a: seq<Bytes>, b: seq<Bytes>)
    requires FixedSize(hash) && AllDigests(a) && AllDigests(b) && !CollisionIn(hash, TreeInputs(hash, a) + TreeInputs(hash, b))
    requires a != [] && b != [] && Depth(|a|) <= Depth(|b|)
    ensures Root(hash, a) == Root(hash, b) <==> Fill(a) == Fill(Up(hash, b, Depth(|b|) - Depth(|a|)))
  {
    hide Root, Fill, TreeInputs, FixedSize, AllDigests, CollisionIn, Up;
    if Root(hash, a) == Root(hash, b) {
      SharedRootMeans(hash, a, b);
    } else if Fill(a) == Fill(Up(hash, b, Depth(|b|) - Depth(|a|))) {
      SpelledAlike(hash, a, b);
    }
  }

  // ---------- What is hashed ----------

  lemma JoinAt(a: seq<Bytes>, b: seq<Bytes>, k: nat)
    requires |a| % 2 == 0 && k < Halved(|a + b|)
    ensures 2 * k < |a + b| && Halved(|a + b|) == Halved(|a|) + Halved(|b|)
    ensures if k < Halved(|a|) then 2 * k < |a| && (a + b)[2 * k] == a[2 * k] && Partner(a + b, 2 * k) == Partner(a, 2 * k)
            else var j := k - Halved(|a|);
                 2 * j < |b| && (a + b)[2 * k] == b[2 * j] && Partner(a + b, 2 * k) == Partner(b, 2 * j)
  {
  }

  lemma NextLevelJoins(hash: Bytes -> Bytes, a: seq<Bytes>, b: seq<Bytes>)
    requires |a| % 2 == 0
    ensures NextLevel(hash, a + b) == NextLevel(hash, a) + NextLevel(hash, b)
  {
    hide NextLevel, Partner, LevelInputs;
    var whole, left, right := NextLevel(hash, a + b), NextLevel(hash, a), NextLevel(hash, b);
    assert |whole| == |left| + |right|;
    forall k | 0 <= k < |whole| ensures whole[k] == (left + right)[k] { JoinedAt(hash, a, b, k); }
  }

  lemma JoinedAt(hash: Bytes -> Bytes, a: seq<Bytes>, b: seq<Bytes>, k: nat)
    requires |a| % 2 == 0 && k < Halved(|a + b|)
    ensures NextLevel(hash, a + b)[k] == (NextLevel(hash, a) + NextLevel(hash, b))[k]
  {
    hide NextLevel, Partner, LevelInputs, Halved;
    JoinAt(a, b, k);
    LevelAt(hash, a + b, k);
    if k < Halved(|a|) { LevelAt(hash, a, k); } else { LevelAt(hash, b, k - Halved(|a|)); }
  }

  lemma RootOfTwo(hash: Bytes -> Bytes, a: Bytes, b: Bytes)
    ensures Root(hash, [a, b]) == hash(a + b)
  {
    LevelAt(hash, [a, b], 0);
  }

  lemma RootOfSingles(hash: Bytes -> Bytes, a: seq<Bytes>, b: seq<Bytes>)
    requires |a| == |b| == 1
    ensures Root(hash, a + b) == hash(Root(hash, a) + Root(hash, b))
  {
    RootOfTwo(hash, a[0], b[0]);
    hide NextLevel;
    assert Root(hash, a) == a[0] && Root(hash, b) == b[0] && a + b == [a[0], b[0]];
  }

  lemma OneLevelUp(hash: Bytes -> Bytes, level: seq<Bytes>)
    requires |level| > 1
    ensures NextLevel(hash, level) != [] && Root(hash, level) == Root(hash, NextLevel(hash, level))
  {
    hide NextLevel;
  }

  // One level up the two halves are half as long and have the same roots.
  lemma HalvesUp(hash: Bytes -> Bytes, a: seq<Bytes>, b: seq<Bytes>, k: nat) returns (x: seq<Bytes>, y: seq<Bytes>)
    requires |a| == |b| == Power2(k) && k > 0
    ensures |x| == |y| == Power2(k - 1) && x != [] && y != []
    ensures Root(hash, a) == Root(hash, x) && Root(hash, b) == Root(hash, y) && Root(hash, a + b) == Root(hash, x + y)
  {
    hide NextLevel, Power2, Halved, Root;
    HalfSized(a, b, k);
    OneLevelUp(hash, a);
    OneLevelUp(hash, b);
    OneLevelUp(hash, a + b);
    NextLevelJoins(hash, a, b);
    x, y := NextLevel(hash, a), NextLevel(hash, b);
  }

  // The root of two full halves is the hash of the root on the left followed by the root on the right.
  lemma {:induction false} RootOfHalves(hash: Bytes -> Bytes, a: seq<Bytes>, b: seq<Bytes>, k: nat)
    requires |a| == |b| == Power2(k)
    ensures a != [] && b != [] && Root(hash, a + b) == hash(Root(hash, a) + Root(hash, b))
    decreases k
  {
    hide Power2, Root;
    PowerPositive(k);
    if k == 0 {
      RootOfSingles(hash, a, b);
    } else {
      var x, y := HalvesUp(hash, a, b, k);
      RootOfHalves(hash, x, y, k - 1);
    }
  }

  lemma HalfSized(a: seq<Bytes>, b: seq<Bytes>, k: nat)
    requires |a| == |b| == Power2(k) && k > 0
    ensures |a| % 2 == 0 && |a| > 1 && |a + b| > 1 && Halved(|a|) == Halved(|b|) == Power2(k - 1)
  {
    PowerPositive(k - 1);
    DoubleHalved(|a|, Power2(k - 1));
  }

  lemma DoubleHalved(n: nat, m: nat)
    requires n == 2 * m && m > 0
    ensures n % 2 == 0 && n > 1 && Halved(n) == m
  {
  }

  // ---------- What follows ----------

  // Leaves and inner nodes are hashed alike: every level above has the root of the leaves.
  lemma LevelSharesRoot(hash: Bytes -> Bytes, leaves: seq<Bytes>)
    requires |leaves| > 1
    ensures Root(hash, NextLevel(hash, leaves)) == Root(hash, leaves) && |NextLevel(hash, leaves)| < |leaves|
  {
  }

  // A path shortened by one step proves a node of the level above the leaves.
  lemma InnerNodeClimbs(hash: Bytes -> Bytes, leaves: seq<Bytes>, i: nat)
    requires |leaves| > 1 && i < Halved(|leaves|)
    ensures var x := NextLevel(hash, leaves);
            && WellShaped(Levels(hash, x)) && |PathFrom(Levels(hash, x), i)| == Depth(|leaves|) - 1
            && Climb(hash, x[i], PathFrom(Levels(hash, x), i)) == Root(hash, leaves)
  {
    ProofComplete(hash, NextLevel(hash, leaves), i);
    hide NextLevel, Levels, PathFrom, Climb;
  }

  // Every position of a level occurs in the full one.
  lemma {:induction false} SlotFor(n: nat, j: nat) returns (i: nat)
    requires j < n
    ensures i < Power2(Depth(n)) && Slot(n, i) == j
    decreases n
  {
    if n == 1 {
      i := 0;
    } else {
      var k := SlotFor(Halved(n), j / 2);
      i := 2 * k + j % 2;
      assert i / 2 == k && i % 2 == j % 2;
    }
  }

  // Lists of one length spell out alike only when they are equal.
  lemma FillDetermines(a: seq<Bytes>, b: seq<Bytes>)
    requires a != [] && |a| == |b| && Fill(a) == Fill(b)
    ensures a == b
  {
    hide Fill, Slot, Depth, Power2;
    forall j | 0 <= j < |a| ensures a[j] == b[j] {
      var i := SlotFor(|a|, j);
      FillAt(a, i);
      FillAt(b, i);
    }
  }
}
