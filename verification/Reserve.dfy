// Hash-chain proofs that a reserve meets a minimum.
module Reserve {
  import opened Wrappers

  function Chain(hash: Bytes -> Bytes, seed: Bytes, n: nat): Bytes {
    if n == 0 then seed else hash(Chain(hash, seed, n - 1))
  }

  // A negative count hashes nothing, as a range over it is empty.
  method HashChain(hash: Bytes -> Bytes, seed: Bytes, iterations: int) returns (current: Bytes)
    ensures current == Chain(hash, seed, if iterations < 0 then 0 else iterations)
  {
    current := seed;
    var k := 0;
    while k < iterations
      invariant 0 <= k && (k <= iterations || k == 0) && current == Chain(hash, seed, k)
    {
      current := hash(current);
      k := k + 1;
    }
  }

  lemma {:induction false} ChainAdds(hash: Bytes -> Bytes, seed: Bytes, a: nat, b: nat)
    ensures Chain(hash, Chain(hash, seed, b), a) == Chain(hash, seed, a + b)
    ensures Chain(hash, seed, 0) == seed && Chain(hash, seed, 1) == hash(seed)
  {
    if a > 0 { ChainAdds(hash, seed, a - 1, b); }
  }

  datatype Prover = Prover(actual: int, maxCapacity: int, seed: Bytes, commitment: Bytes)

  datatype ReserveProof = ReserveProof(commitment: Bytes, minimum: int, proof: Bytes)

  method NewProver(hash: Bytes -> Bytes, actual: int, maxCapacity: int, seed: Bytes) returns (r: Result<Prover, string>)
    ensures r.Ok? <==> 0 <= actual <= maxCapacity
    ensures r.Ok? ==> r.value == Prover(actual, maxCapacity, seed, Chain(hash, seed, maxCapacity))
  {
    if actual < 0 || actual > maxCapacity { return Err("Reserve out of bounds"); }
    var commitment := HashChain(hash, seed, maxCapacity);
    return Ok(Prover(actual, maxCapacity, seed, commitment));
  }

  ghost predicate Honest(hash: Bytes -> Bytes, p: Prover) {
    0 <= p.actual <= p.maxCapacity && p.commitment == Chain(hash, p.seed, p.maxCapacity)
  }

  function ProofFor(hash: Bytes -> Bytes, p: Prover, minimum: int): ReserveProof
    requires minimum <= p.maxCapacity
  {
    ReserveProof(p.commitment, minimum, Chain(hash, p.seed, p.maxCapacity - minimum))
  }

  predicate Accepts(hash: Bytes -> Bytes, proof: ReserveProof, maxCapacity: int) {
    0 <= proof.minimum <= maxCapacity && Chain(hash, proof.proof, proof.minimum) == proof.commitment
  }

  method ProveMinimum(hash: Bytes -> Bytes, p: Prover, minimum: int) returns (r: Result<ReserveProof, string>)
    requires 0 <= p.actual <= p.maxCapacity
    ensures r.Ok? <==> minimum <= p.actual
    ensures r.Ok? ==> r.value == ProofFor(hash, p, minimum)
  {
    if p.actual < minimum { return Err("Cannot generate proof"); }
    var proof := HashChain(hash, p.seed, p.maxCapacity - minimum);
    return Ok(ReserveProof(p.commitment, minimum, proof));
  }

  method VerifyReserve(hash: Bytes -> Bytes, proof: ReserveProof, maxCapacity: int) returns (ok: bool)
    ensures ok <==> Accepts(hash, proof, maxCapacity)
  {
    if proof.minimum < 0 || proof.minimum > maxCapacity { return false; }
    var expected := HashChain(hash, proof.proof, proof.minimum);
    return expected == proof.commitment;
  }

  // A proof computed from the seed is accepted, under any verifier bound, exactly when its minimum
  // is not negative and within the bound. The minimum may exceed the reserve: only the capacity counts.
  lemma HonestProofAccepted(hash: Bytes -> Bytes, p: Prover, minimum: int, bound: int)
    requires Honest(hash, p) && minimum <= p.maxCapacity
    ensures Accepts(hash, ProofFor(hash, p, minimum), bound) <==> 0 <= minimum <= bound
  {
    if 0 <= minimum { ChainAdds(hash, p.seed, minimum, p.maxCapacity - minimum); }
  }

  // What the verifier learns of the reserve: nothing. Commitment and proofs are the same for every
  // reserve within the capacity, and only the prover refuses a minimum above its own.
  lemma ReserveUnseen(hash: Bytes -> Bytes, p: Prover, other: int, minimum: int, bound: int)
    requires Honest(hash, p) && 0 <= other <= p.maxCapacity && minimum <= p.maxCapacity
    ensures var q := p.(actual := other);
            Honest(hash, q) && ProofFor(hash, q, minimum) == ProofFor(hash, p, minimum)
            && (Accepts(hash, ProofFor(hash, q, minimum), bound) <==> 0 <= minimum <= bound)
  {
    HonestProofAccepted(hash, p, minimum, bound);
  }

  // An accepted proof for one minimum yields accepted proofs for all smaller ones.
  lemma SmallerMinimum(hash: Bytes -> Bytes, proof: ReserveProof, bound: int, smaller: int)
    requires Accepts(hash, proof, bound) && 0 <= smaller <= proof.minimum
    ensures Accepts(hash, ReserveProof(proof.commitment, smaller, Chain(hash, proof.proof, proof.minimum - smaller)), bound)
  {
    ChainAdds(hash, proof.proof, smaller, proof.minimum - smaller);
  }
}
