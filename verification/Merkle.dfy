// Merkle tree over leaf digests. An odd level pairs its last node with itself.
// Digests are byte strings and the hash is any function on byte strings.
module Merkle {
  import opened Wrappers

  datatype Direction = Left | Right

  // A sibling on the way up, and the side it stands on.
  datatype PathNode = PathNode(hash: Bytes, direction: Direction)

  datatype InclusionProof = InclusionProof(index: nat, leaf: Bytes, root: Bytes, path: seq<PathNode>)

  const DIGEST_SIZE := 32

  // Two of the given byte strings differ and hash to the same digest.
  ghost predicate CollisionIn(hash: Bytes -> Bytes, inputs: set<Bytes>) {
    exists a, b :: a in inputs && b in inputs && a != b && hash(a) == hash(b)
  }

  ghost predicate FixedSize(hash: Bytes -> Bytes) {
    forall x :: |hash(x)| == DIGEST_SIZE
  }

  ghost predicate AllDigests(level: seq<Bytes>) {
    forall i :: 0 <= i < |level| ==> |level[i]| == DIGEST_SIZE
  }

  // The right partner of the node at an even index.
  function Partner(level: seq<Bytes>, i: nat): Bytes
    requires i < |level|
  {
    if i + 1 < |level| then level[i + 1] else level[i]
  }

  function Halved(n: nat): nat { (n + 1) / 2 }

  function NextLevel(hash: Bytes -> Bytes, level: seq<Bytes>): (r: seq<Bytes>)
    ensures |r| == Halved(|level|)
    ensures forall i :: 0 <= i < |r| ==> 2 * i < |level| && r[i] == hash(level[2 * i] + Partner(level, 2 * i))
  {
    seq(Halved(|level|), i requires 0 <= i < Halved(|level|) => hash(level[2 * i] + Partner(level, 2 * i)))
  }

  // All levels, leaves first, a single root last.
  function Levels(hash: Bytes -> Bytes, level: seq<Bytes>): (r: seq<seq<Bytes>>)
    requires level != []
    ensures r != [] && r[0] == level && |r[|r| - 1]| == 1
    decreases |level|
  {
    if |level| == 1 then [level] else [level] + Levels(hash, NextLevel(hash, level))
  }

  function Root(hash: Bytes -> Bytes, leaves: seq<Bytes>): Bytes
    requires leaves != []
    decreases |leaves|
  {
    if |leaves| == 1 then leaves[0] else Root(hash, NextLevel(hash, leaves))
  }

  // The other half of the pair that index i belongs to.
  function Sibling(level: seq<Bytes>, i: nat): PathNode
    requires i < |level|
  {
    if i % 2 == 1 then PathNode(level[i - 1], Left) else PathNode(Partner(level, i), Right)
  }

  predicate WellShaped(levels: seq<seq<Bytes>>) {
    levels != [] && (|levels| > 1 ==> |levels[1]| == Halved(|levels[0]|) && WellShaped(levels[1..]))
  }

  // The siblings from the lowest level up, for the node at index i.
  function PathFrom(levels: seq<seq<Bytes>>, i: nat): seq<PathNode>
    requires WellShaped(levels) && i < |levels[0]|
    decreases |levels|
  {
    if |levels| == 1 then [] else [Sibling(levels[0], i)] + PathFrom(levels[1..], i / 2)
  }

  // Hashing one step up beside a sibling.
  function Climb1(hash: Bytes -> Bytes, current: Bytes, node: PathNode): Bytes {
    if node.direction.Left? then hash(node.hash + current) else hash(current + node.hash)
  }

  function Climb(hash: Bytes -> Bytes, current: Bytes, path: seq<PathNode>): Bytes
    decreases |path|
  {
    if path == [] then current else Climb(hash, Climb1(hash, current, path[0]), path[1..])
  }

  // ---------- The tree, the proof and its check ----------

  method BuildLevel(hash: Bytes -> Bytes, current: seq<Bytes>) returns (next: seq<Bytes>)
    ensures next == NextLevel(hash, current)
  {
    next := [];
    var i := 0;
    while i < |current|
      invariant 0 <= i <= |current| + 1 && i % 2 == 0 && |next| == i / 2
      invariant forall k :: 0 <= k < |next| ==> next[k] == hash(current[2 * k] + Partner(current, 2 * k))
    {
      var left := current[i];
      var right := if i + 1 < |current| then current[i + 1] else left;
      next := next + [hash(left + right)];
      i := i + 2;
    }
  }

  method BuildTree(hash: Bytes -> Bytes, leaves: seq<Bytes>) returns (r: Result<seq<seq<Bytes>>, string>)
    ensures r.Ok? <==> leaves != []
    ensures r.Ok? ==> r.value == Levels(hash, leaves)
  {
    if leaves == [] { return Err("MerkleTree requires at least one leaf hash"); }
    hide NextLevel;
    var levels, current := [leaves], leaves;
    ghost var below: seq<seq<Bytes>> := [];
    while |current| > 1
      invariant current != [] && levels == below + [current]
      invariant below + Levels(hash, current) == Levels(hash, leaves)
      decreases |current|
    {
      var next := BuildLevel(hash, current);
      below := levels;
      levels := levels + [next];
      current := next;
    }
    return Ok(levels);
  }

  lemma {:induction false} LevelsWellShaped(hash: Bytes -> Bytes, leaves: seq<Bytes>)
    requires leaves != []
    ensures var levels := Levels(hash, leaves);
            WellShaped(levels) && levels[|levels| - 1][0] == Root(hash, leaves)
    decreases |leaves|
  {
    if |leaves| > 1 {
      hide NextLevel;
      var next := NextLevel(hash, leaves);
      LevelsWellShaped(hash, next);
      assert Levels(hash, leaves)[1..] == Levels(hash, next);
    }
  }

  lemma PathStep(levels: seq<seq<Bytes>>, k: nat, current: nat)
    requires k < |levels| - 1 && WellShaped(levels[k..]) && current < |levels[k]|
    ensures WellShaped(levels[k + 1..]) && current / 2 < |levels[k + 1]|
    ensures PathFrom(levels[k..], current) == [Sibling(levels[k], current)] + PathFrom(levels[k + 1..], current / 2)
  {
    assert levels[k..][0] == levels[k] && levels[k..][1..] == levels[k + 1..] && levels[k..][1] == levels[k + 1];
    hide Sibling;
  }

  lemma PathEnd(levels: seq<seq<Bytes>>, current: nat)
    requires WellShaped(levels) && |levels| == 1 && current < |levels[0]|
    ensures PathFrom(levels, current) == []
  {
  }

  // The sibling of one level.
  method SiblingNode(level: seq<Bytes>, current: nat) returns (node: PathNode)
    requires current < |level|
    ensures node == Sibling(level, current)
  {
    if current % 2 == 1 {
      node := PathNode(level[current - 1], Left);
    } else {
      node := PathNode(level[if current + 1 < |level| then current + 1 else current], Right);
    }
  }

  method GenerateInclusionProof(levels: seq<seq<Bytes>>, index: int) returns (r: Result<InclusionProof, string>)
    requires WellShaped(levels) && levels[|levels| - 1] != []
    ensures r.Ok? <==> 0 <= index < |levels[0]|
    ensures r.Ok? ==> r.value == InclusionProof(index, levels[0][index], levels[|levels| - 1][0], PathFrom(levels, index))
  {
    assert levels != [];
    hide WellShaped, PathFrom, Sibling;
    if !(0 <= index < |levels[0]|) { return Err("Leaf index out of bounds"); }
    assert levels[0..] == levels;
    var path: seq<PathNode> := [];
    var current: nat := index;
    for k := 0 to |levels| - 1
      invariant WellShaped(levels[k..]) && current < |levels[k]|
      invariant path + PathFrom(levels[k..], current) == PathFrom(levels, index)
    {
      var node := SiblingNode(levels[k], current);
      PathStep(levels, k, current);
      Regroup(path, node, PathFrom(levels[k + 1..], current / 2));
      path := path + [node];
      current := current / 2;
    }
    PathEnd(levels[|levels| - 1..], current);
    return Ok(InclusionProof(index, levels[0][index], levels[|levels| - 1][0], path));
  }

  lemma Regroup(path: seq<PathNode>, node: PathNode, rest: seq<PathNode>)
    ensures path + ([node] + rest) == (path + [node]) + rest
  {
  }

  method VerifyProof(hash: Bytes -> Bytes, proof: InclusionProof) returns (ok: bool)
    ensures ok <==> Climb(hash, proof.leaf, proof.path) == proof.root
  {
    var current := proof.leaf;
    for k := 0 to |proof.path|
      invariant Climb(hash, current, proof.path[k..]) == Climb(hash, proof.leaf, proof.path)
    {
      assert proof.path[k..][0] == proof.path[k] && proof.path[k..][1..] == proof.path[k + 1..];
      var node := proof.path[k];
      if node.direction.Left? {
        current := hash(node.hash + current);
      } else {
        current := hash(current + node.hash);
      }
    }
    ok := current == proof.root;
  }

  // ---------- Completeness ----------

  // The least k with 2^k >= n.
  function Depth(n: nat): nat
    requires n > 0
    decreases n
  {
    if n == 1 then 0 else 1 + Depth(Halved(n))
  }

  function Power2(k: nat): nat { if k == 0 then 1 else 2 * Power2(k - 1) }

  lemma {:induction false} DepthIsCeilLog(n: nat)
    requires n > 0
    ensures Power2(Depth(n)) >= n && (n > 1 ==> Power2(Depth(n) - 1) < n)
    decreases n
  {
    if n > 1 {
      DepthIsCeilLog(Halved(n));
      if Halved(n) > 1 { assert Power2(Depth(n) - 1) == 2 * Power2(Depth(Halved(n)) - 1); }
    }
  }

  lemma SiblingClimbs(hash: Bytes -> Bytes, level: seq<Bytes>, i: nat)
    requires i < |level|
    ensures Climb1(hash, level[i], Sibling(level, i)) == NextLevel(hash, level)[i / 2]
  {
    hide NextLevel;
    var pair := i / 2;
    assert NextLevel(hash, level)[pair] == hash(level[2 * pair] + Partner(level, 2 * pair));
  }

  lemma FirstStep(hash: Bytes -> Bytes, leaves: seq<Bytes>, i: nat)
    requires 1 < |leaves| && i < |leaves|
    ensures WellShaped(Levels(hash, leaves))
    ensures var next := NextLevel(hash, leaves);
            && WellShaped(Levels(hash, next))
            && PathFrom(Levels(hash, leaves), i) == [Sibling(leaves, i)] + PathFrom(Levels(hash, next), i / 2)
  {
    hide NextLevel, Sibling;
    LevelsWellShaped(hash, leaves);
    assert Levels(hash, leaves)[1..] == Levels(hash, NextLevel(hash, leaves));
  }

  // Every generated proof climbs to the root, in ceil(log2 n) steps.
  lemma {:induction false} ProofComplete(hash: Bytes -> Bytes, leaves: seq<Bytes>, i: nat)
    requires i < |leaves|
    ensures WellShaped(Levels(hash, leaves))
    ensures var path := PathFrom(Levels(hash, leaves), i);
            Climb(hash, leaves[i], path) == Root(hash, leaves) && |path| == Depth(|leaves|)
    decreases |leaves|
  {
    LevelsWellShaped(hash, leaves);
    if |leaves| > 1 {
      hide NextLevel, Levels, WellShaped, PathFrom, Climb1;
      FirstStep(hash, leaves, i);
      SiblingClimbs(hash, leaves, i);
      ProofComplete(hash, NextLevel(hash, leaves), i / 2);
      var rest := PathFrom(Levels(hash, NextLevel(hash, leaves)), i / 2);
      assert ([Sibling(leaves, i)] + rest)[1..] == rest;
    } else {
      assert Levels(hash, leaves) == [leaves];
    }
  }

  // ---------- Binding ----------

  // What is hashed to build the level above.
  function LevelInputs(level: seq<Bytes>): (r: set<Bytes>)
    ensures forall k :: 0 <= k < Halved(|level|) ==> 2 * k < |level| && level[2 * k] + Partner(level, 2 * k) in r
  {
    set k | 0 <= k < Halved(|level|) :: level[2 * k] + Partner(level, 2 * k)
  }

  // What is hashed to build the whole tree.
  function TreeInputs(hash: Bytes -> Bytes, leaves: seq<Bytes>): set<Bytes>
    decreases |leaves|
  {
    if |leaves| <= 1 then {} else LevelInputs(leaves) + TreeInputs(hash, NextLevel(hash, leaves))
  }

  function StepInput(current: Bytes, node: PathNode): Bytes {
    if node.direction.Left? then node.hash + current else current + node.hash
  }

  // What the verifier hashes.
  function ClimbInputs(hash: Bytes -> Bytes, current: Bytes, path: seq<PathNode>): set<Bytes>
    decreases |path|
  {
    if path == [] then {} else {StepInput(current, path[0])} + ClimbInputs(hash, Climb1(hash, current, path[0]), path[1..])
  }

  lemma CollisionGrows(hash: Bytes -> Bytes, small: set<Bytes>, large: set<Bytes>)
    requires small <= large && CollisionIn(hash, small)
    ensures CollisionIn(hash, large)
  {
  }

  lemma PairOrCollision(hash: Bytes -> Bytes, inputs: set<Bytes>, a: Bytes, b: Bytes, c: Bytes, d: Bytes)
    requires |a| == |c| && hash(a + b) == hash(c + d) && a + b in inputs && c + d in inputs
    ensures (a == c && b == d) || CollisionIn(hash, inputs)
  {
    if a + b == c + d {
      assert a == (a + b)[..|a|] && c == (c + d)[..|a|];
      assert b == (a + b)[|a|..] && d == (c + d)[|a|..];
    }
  }

  lemma NextLevelBinds(hash: Bytes -> Bytes, a: seq<Bytes>, b: seq<Bytes>)
    requires |a| == |b| && AllDigests(a) && AllDigests(b) && NextLevel(hash, a) == NextLevel(hash, b)
    ensures a == b || CollisionIn(hash, LevelInputs(a) + LevelInputs(b))
  {
    hide CollisionIn, NextLevel, LevelInputs;
    var inputs := LevelInputs(a) + LevelInputs(b);
    if !CollisionIn(hash, inputs) {
      forall i | 0 <= i < |a| ensures a[i] == b[i] {
        var k := i / 2;
        assert NextLevel(hash, a)[k] == NextLevel(hash, b)[k];
        assert 0 <= k < Halved(|a|);
        PairOrCollision(hash, inputs, a[2 * k], Partner(a, 2 * k), b[2 * k], Partner(b, 2 * k));
      }
    }
  }

  lemma NextLevelDigests(hash: Bytes -> Bytes, level: seq<Bytes>)
    requires FixedSize(hash)
    ensures AllDigests(NextLevel(hash, level))
  {
  }

  // Two leaf lists of the same length with one root are equal, or two different
  // inputs hashed while building the two trees collide.
  lemma {:induction false} RootBinds(hash: Bytes -> Bytes, a: seq<Bytes>, b: seq<Bytes>)
    requires FixedSize(hash) && a != [] && |a| == |b| && AllDigests(a) && AllDigests(b)
    requires Root(hash, a) == Root(hash, b)
    ensures a == b || CollisionIn(hash, TreeInputs(hash, a) + TreeInputs(hash, b))
    decreases |a|
  {
    if |a| == 1 {
      assert a == [a[0]] && b == [b[0]];
    } else {
      hide CollisionIn, FixedSize, AllDigests, LevelInputs;
      var x, y := NextLevel(hash, a), NextLevel(hash, b);
      NextLevelDigests(hash, a);
      NextLevelDigests(hash, b);
      RootBinds(hash, x, y);
      var inputs := TreeInputs(hash, a) + TreeInputs(hash, b);
      if x == y {
        NextLevelBinds(hash, a, b);
        if a != b { CollisionGrows(hash, LevelInputs(a) + LevelInputs(b), inputs); }
      } else {
        CollisionGrows(hash, TreeInputs(hash, x) + TreeInputs(hash, y), inputs);
      }
    }
  }

  // The equal length is needed: the doubled last leaf of an odd list can be spelled out.
  lemma OddLevelAmbiguity(hash: Bytes -> Bytes, leaves: seq<Bytes>)
    requires |leaves| > 1 && |leaves| % 2 == 1
    ensures Root(hash, leaves + [leaves[|leaves| - 1]]) == Root(hash, leaves)
  {
    var longer := leaves + [leaves[|leaves| - 1]];
    var a, b := NextLevel(hash, leaves), NextLevel(hash, longer);
    forall k | 0 <= k < |a| ensures a[k] == b[k] {
      assert longer[2 * k] == leaves[2 * k] && Partner(longer, 2 * k) == Partner(leaves, 2 * k);
    }
    hide NextLevel;
    assert a == b;
  }

  // ---------- What an accepted proof means ----------

  // The position that the sides of a path spell in a level of n nodes, from the root down;
  // the missing partner of an odd level's last node is that node itself.
  function Spell(n: nat, path: seq<PathNode>): (i: nat)
    requires n > 0 && |path| == Depth(n)
    ensures i < n
    decreases |path|
  {
    if path == [] then 0
    else
      var i := 2 * Spell(Halved(n), path[1..]) + (if path[0].direction.Left? then 1 else 0);
      if i < n then i else n - 1
  }

  // The node that a path of at most full length spells: a leaf, or a node further up.
  function Spelled(hash: Bytes -> Bytes, leaves: seq<Bytes>, path: seq<PathNode>): Bytes
    requires leaves != [] && |path| <= Depth(|leaves|)
    decreases |leaves|
  {
    if |path| < Depth(|leaves|) then Spelled(hash, NextLevel(hash, leaves), path) else leaves[Spell(|leaves|, path)]
  }

  lemma StepMeans(hash: Bytes -> Bytes, level: seq<Bytes>, k: nat, claimed: Bytes, node: PathNode)
    requires k < Halved(|level|) && AllDigests(level) && |claimed| == DIGEST_SIZE
    requires Climb1(hash, claimed, node) == NextLevel(hash, level)[k]
    ensures claimed == (if node.direction.Left? then Partner(level, 2 * k) else level[2 * k])
         || CollisionIn(hash, LevelInputs(level) + {StepInput(claimed, node)})
  {
    var inputs := LevelInputs(level) + {StepInput(claimed, node)};
    var a, b := level[2 * k], Partner(level, 2 * k);
    assert a + b in inputs && StepInput(claimed, node) in inputs && |a| == |b| == DIGEST_SIZE;
    hide NextLevel, LevelInputs, AllDigests, Partner;
    if StepInput(claimed, node) == a + b {
      SameHalves(claimed, node, a, b);
    }
  }

  lemma SameHalves(claimed: Bytes, node: PathNode, a: Bytes, b: Bytes)
    requires |claimed| == |a| == |b| == DIGEST_SIZE && StepInput(claimed, node) == a + b
    ensures claimed == if node.direction.Left? then b else a
  {
    var input := StepInput(claimed, node);
    if node.direction.Left? {
      assert claimed == input[|input| - DIGEST_SIZE..] && b == (a + b)[|a + b| - DIGEST_SIZE..];
    } else {
      assert claimed == input[..DIGEST_SIZE] && a == (a + b)[..DIGEST_SIZE];
    }
  }

  lemma SpellStep(n: nat, path: seq<PathNode>)
    requires n > 1 && |path| == Depth(n)
    ensures var k := Spell(Halved(n), path[1..]);
            Spell(n, path) == if path[0].direction.Left? then (if 2 * k + 1 < n then 2 * k + 1 else 2 * k) else 2 * k
  {
  }

  // Whatever path is offered, whatever its sides and the sizes of its hashes: if it climbs from
  // a digest to the root then the digest is the node that the sides spell, or two different
  // inputs hashed by the tree and the verifier collide.
  lemma {:induction false} AcceptedMeans(hash: Bytes -> Bytes, leaves: seq<Bytes>, claimed: Bytes, path: seq<PathNode>)
    requires FixedSize(hash) && leaves != [] && AllDigests(leaves) && |claimed| == DIGEST_SIZE
    requires |path| <= Depth(|leaves|) && Climb(hash, claimed, path) == Root(hash, leaves)
    ensures claimed == Spelled(hash, leaves, path) || CollisionIn(hash, TreeInputs(hash, leaves) + ClimbInputs(hash, claimed, path))
    decreases |leaves|
  {
    if |leaves| > 1 {
      hide NextLevel, CollisionIn, LevelInputs, StepInput, Spell;
      var next, inputs := NextLevel(hash, leaves), TreeInputs(hash, leaves) + ClimbInputs(hash, claimed, path);
      NextLevelDigests(hash, leaves);
      hide AllDigests;
      if |path| < Depth(|leaves|) {
        AcceptedMeans(hash, next, claimed, path);
        if claimed != Spelled(hash, next, path) {
          CollisionGrows(hash, TreeInputs(hash, next) + ClimbInputs(hash, claimed, path), inputs);
        }
      } else {
        var up := Climb1(hash, claimed, path[0]);
        assert |up| == DIGEST_SIZE;
        AcceptedMeans(hash, next, up, path[1..]);
        FullStep(hash, leaves, claimed, path, inputs);
      }
    }
  }

  lemma InputsBelow(hash: Bytes -> Bytes, leaves: seq<Bytes>, claimed: Bytes, path: seq<PathNode>)
    requires |leaves| > 1 && path != []
    ensures TreeInputs(hash, NextLevel(hash, leaves)) + ClimbInputs(hash, Climb1(hash, claimed, path[0]), path[1..])
         <= TreeInputs(hash, leaves) + ClimbInputs(hash, claimed, path)
    ensures LevelInputs(leaves) + {StepInput(claimed, path[0])} <= TreeInputs(hash, leaves) + ClimbInputs(hash, claimed, path)
  {
    hide LevelInputs, StepInput, Climb1, NextLevel;
  }

  // From the node above to the node itself.
  lemma OneDown(hash: Bytes -> Bytes, leaves: seq<Bytes>, claimed: Bytes, path: seq<PathNode>, up: Bytes)
    requires |leaves| > 1 && AllDigests(leaves) && |claimed| == DIGEST_SIZE && |path| == Depth(|leaves|)
    requires up == Climb1(hash, claimed, path[0]) == Spelled(hash, NextLevel(hash, leaves), path[1..])
    ensures claimed == Spelled(hash, leaves, path) || CollisionIn(hash, LevelInputs(leaves) + {StepInput(claimed, path[0])})
  {
    hide AllDigests, CollisionIn, LevelInputs, StepInput, Spell, Climb1;
    var k := Spell(Halved(|leaves|), path[1..]);
    SpellStep(|leaves|, path);
    StepMeans(hash, leaves, k, claimed, path[0]);
    hide NextLevel;
  }

  lemma FullStep(hash: Bytes -> Bytes, leaves: seq<Bytes>, claimed: Bytes, path: seq<PathNode>, inputs: set<Bytes>)
    requires |leaves| > 1 && AllDigests(leaves) && |claimed| == DIGEST_SIZE && |path| == Depth(|leaves|)
    requires inputs == TreeInputs(hash, leaves) + ClimbInputs(hash, claimed, path)
    requires var next, up := NextLevel(hash, leaves), Climb1(hash, claimed, path[0]);
             up == Spelled(hash, next, path[1..]) || CollisionIn(hash, TreeInputs(hash, next) + ClimbInputs(hash, up, path[1..]))
    ensures claimed == Spelled(hash, leaves, path) || CollisionIn(hash, inputs)
  {
    hide AllDigests, CollisionIn, LevelInputs, StepInput, Spell, Climb1, NextLevel, TreeInputs, ClimbInputs, Spelled;
    var next, up := NextLevel(hash, leaves), Climb1(hash, claimed, path[0]);
    InputsBelow(hash, leaves, claimed, path);
    if up == Spelled(hash, next, path[1..]) {
      OneDown(hash, leaves, claimed, path, up);
      if CollisionIn(hash, LevelInputs(leaves) + {StepInput(claimed, path[0])}) {
        CollisionGrows(hash, LevelInputs(leaves) + {StepInput(claimed, path[0])}, inputs);
      }
    } else {
      CollisionGrows(hash, TreeInputs(hash, next) + ClimbInputs(hash, up, path[1..]), inputs);
    }
  }

  lemma {:induction false} ClimbSplits(hash: Bytes -> Bytes, current: Bytes, path: seq<PathNode>, k: nat)
    requires k <= |path|
    ensures var middle := Climb(hash, current, path[..k]);
            Climb(hash, middle, path[k..]) == Climb(hash, current, path)
            && ClimbInputs(hash, middle, path[k..]) <= ClimbInputs(hash, current, path)
    decreases k
  {
    if k > 0 {
      var up := Climb1(hash, current, path[0]);
      assert path[..k][0] == path[0] && path[..k][1..] == path[1..][..k - 1] && path[k..] == path[1..][k - 1..];
      ClimbSplits(hash, up, path[1..], k - 1);
    } else {
      assert path[..0] == [] && path[0..] == path;
    }
  }

  // A longer path hashes its way to a leaf first.
  lemma LongPathMeans(hash: Bytes -> Bytes, leaves: seq<Bytes>, claimed: Bytes, path: seq<PathNode>)
    requires FixedSize(hash) && leaves != [] && AllDigests(leaves) && |claimed| == DIGEST_SIZE
    requires |path| > Depth(|leaves|) && Climb(hash, claimed, path) == Root(hash, leaves)
    ensures var k := |path| - Depth(|leaves|);
            Climb(hash, claimed, path[..k]) == leaves[Spell(|leaves|, path[k..])]
            || CollisionIn(hash, TreeInputs(hash, leaves) + ClimbInputs(hash, claimed, path))
  {
    var k := |path| - Depth(|leaves|);
    var middle := Climb(hash, claimed, path[..k]);
    ClimbSplits(hash, claimed, path, k);
    ClimbDigest(hash, claimed, path[..k]);
    hide Climb, CollisionIn, ClimbInputs, TreeInputs, FixedSize, AllDigests, Spell;
    AcceptedMeans(hash, leaves, middle, path[k..]);
    var small := TreeInputs(hash, leaves) + ClimbInputs(hash, middle, path[k..]);
    if CollisionIn(hash, small) { CollisionGrows(hash, small, TreeInputs(hash, leaves) + ClimbInputs(hash, claimed, path)); }
  }

  lemma {:induction false} ClimbDigest(hash: Bytes -> Bytes, current: Bytes, path: seq<PathNode>)
    requires FixedSize(hash) && |current| == DIGEST_SIZE
    ensures |Climb(hash, current, path)| == DIGEST_SIZE
    decreases |path|
  {
    if path != [] {
      assert |Climb1(hash, current, path[0])| == DIGEST_SIZE;
      hide Climb1, FixedSize;
      ClimbDigest(hash, Climb1(hash, current, path[0]), path[1..]);
    }
  }

  // The proof generated for index i spells i.
  lemma {:induction false} GeneratedSpells(hash: Bytes -> Bytes, leaves: seq<Bytes>, i: nat)
    requires i < |leaves|
    ensures WellShaped(Levels(hash, leaves)) && |PathFrom(Levels(hash, leaves), i)| == Depth(|leaves|)
    ensures Spell(|leaves|, PathFrom(Levels(hash, leaves), i)) == i
    decreases |leaves|
  {
    ProofComplete(hash, leaves, i);
    if |leaves| > 1 {
      FirstStep(hash, leaves, i);
      hide NextLevel, Levels, WellShaped, PathFrom, Climb, Root;
      GeneratedSpells(hash, NextLevel(hash, leaves), i / 2);
      var path := PathFrom(Levels(hash, leaves), i);
      assert path[1..] == PathFrom(Levels(hash, NextLevel(hash, leaves)), i / 2);
      SpellStep(|leaves|, path);
    }
  }

  // The sides of index i, whatever the hashes beside them.
  ghost predicate SidesOf(path: seq<PathNode>, i: nat)
    decreases |path|
  {
    path != [] ==> path[0].direction == (if i % 2 == 1 then Left else Right) && SidesOf(path[1..], i / 2)
  }

  lemma {:induction false} SidesSpell(n: nat, path: seq<PathNode>, i: nat)
    requires i < n && |path| == Depth(n) && SidesOf(path, i)
    ensures Spell(n, path) == i
    decreases n
  {
    if n > 1 {
      SidesSpell(Halved(n), path[1..], i / 2);
      SpellStep(n, path);
    }
  }

  // So a full-length path with the sides of index i starts at leaf i.
  lemma InclusionSound(hash: Bytes -> Bytes, leaves: seq<Bytes>, i: nat, claimed: Bytes, path: seq<PathNode>)
    requires FixedSize(hash) && i < |leaves| && AllDigests(leaves) && |claimed| == DIGEST_SIZE
    requires |path| == Depth(|leaves|) && SidesOf(path, i) && Climb(hash, claimed, path) == Root(hash, leaves)
    ensures claimed == leaves[i] || CollisionIn(hash, TreeInputs(hash, leaves) + ClimbInputs(hash, claimed, path))
  {
    SidesSpell(|leaves|, path, i);
    hide Climb, CollisionIn, ClimbInputs, TreeInputs, FixedSize, AllDigests, Spell, SidesOf;
    AcceptedMeans(hash, leaves, claimed, path);
  }
}
