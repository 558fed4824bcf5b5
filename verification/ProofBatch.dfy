/**
 Merkle batches of proof claims: creation, inclusion and its verification.
 Claim fields are digests; the leaf hash over a claim's six fields is a parameter.
 */
module ProofBatch {
  import opened Wrappers
  import opened Merkle

  datatype Claim = Claim(
    proofSystemId: Digest,
    statementId: Digest,
    programCommitment: Digest,
    receiptId: Digest,
    publicValuesDigest: Digest,
    proofDigest: Digest)

  datatype Binding = Binding(proofSystemId: Digest, statementId: Digest, programCommitment: Digest)

  datatype Batch = Batch(binding: Binding, claimCount: nat, claimRoot: Digest, claims: seq<Claim>)

  datatype Inclusion = Inclusion(claimIndex: nat, claim: Claim, siblings: seq<Digest>)

  datatype BatchError = NoClaims | BindingMismatch(at: nat) | DuplicateReceipt(at: nat) | IndexOutside

  type LeafHash = Claim -> Digest

  predicate Bound(claim: Claim, binding: Binding) {
    && claim.proofSystemId == binding.proofSystemId
    && claim.statementId == binding.statementId
    && claim.programCommitment == binding.programCommitment
  }

  /** The binding that a claim names. */
  function BindingOf(claim: Claim): Binding {
    Binding(claim.proofSystemId, claim.statementId, claim.programCommitment)
  }

  function Leaves(leaf: LeafHash, claims: seq<Claim>): (r: seq<Digest>)
    ensures |r| == |claims|
    ensures forall i :: 0 <= i < |r| ==> r[i] == leaf(claims[i])
  {
    seq(|claims|, i requires 0 <= i < |claims| => leaf(claims[i]))
  }

  /** The first n claims carry the binding and pairwise different receipts. */
  ghost predicate Acceptable(claims: seq<Claim>, binding: Binding, n: nat)
    requires n <= |claims|
  {
    && (forall i :: 0 <= i < n ==> Bound(claims[i], binding))
    && (forall i, j :: 0 <= i < j < n ==> claims[i].receiptId != claims[j].receiptId)
  }

  ghost predicate ValidBatch(h: Hash, leaf: LeafHash, batch: Batch) {
    && batch.claims != []
    && batch.claimCount == |batch.claims|
    && Acceptable(batch.claims, batch.binding, |batch.claims|)
    && batch.claimRoot == Root(h, Leaves(leaf, batch.claims))
  }

  /** Refuses at the first claim that is unbound or repeats a receipt, and at no other. */
  method CreateProofBatch(h: Hash, leaf: LeafHash, binding: Binding, claims: seq<Claim>)
    returns (r: Result<Batch, BatchError>)
    ensures claims == [] ==> r == Err(NoClaims)
    ensures r.Ok? <==> claims != [] && Acceptable(claims, binding, |claims|)
    ensures r.Ok? ==> ValidBatch(h, leaf, r.value) && r.value.claims == claims && r.value.binding == binding
    ensures r.Ok? <==> claims != [] && (forall i :: 0 <= i < |claims| ==> BindingOf(claims[i]) == binding)
                       && (forall i, j :: 0 <= i < j < |claims| ==> claims[i].receiptId != claims[j].receiptId)
    ensures r.Err? && r.error.BindingMismatch? ==>
              r.error.at < |claims| && Acceptable(claims, binding, r.error.at) && !Bound(claims[r.error.at], binding)
    ensures r.Err? && r.error.DuplicateReceipt? ==>
              && r.error.at < |claims| && Acceptable(claims, binding, r.error.at) && Bound(claims[r.error.at], binding)
              && exists j :: 0 <= j < r.error.at && claims[j].receiptId == claims[r.error.at].receiptId
    ensures r.Err? ==> r.error != BatchError.IndexOutside
  {
    if |claims| == 0 {
      return Err(NoClaims);
    }
    var receiptIds: set<Digest> := {};
    var index := 0;
    while index < |claims|
      invariant 0 <= index <= |claims|
      invariant Acceptable(claims, binding, index)
      invariant receiptIds == set i | 0 <= i < index :: claims[i].receiptId
    {
      var claim := claims[index];
      if !Bound(claim, binding) {
        return Err(BindingMismatch(index));
      }
      if claim.receiptId in receiptIds {
        return Err(DuplicateReceipt(index));
      }
      receiptIds := receiptIds + {claim.receiptId};
      index := index + 1;
    }
    var leaves := Leaves(leaf, claims);
    var ids := seq(|leaves|, i requires 0 <= i < |leaves| => Hex(leaves[i]));
    assert AllDigests(ids).value == leaves;
    var root := MerkleRoot(h, ids);
    return Ok(Batch(binding, |claims|, root.value, claims));
  }

  function ProofClaimInclusion(h: Hash, leaf: LeafHash, batch: Batch, claimIndex: int): Result<Inclusion, BatchError> {
    if 0 <= claimIndex < |batch.claims| then
      Ok(Inclusion(claimIndex, batch.claims[claimIndex], Path(h, Leaves(leaf, batch.claims), claimIndex)))
    else Err(BatchError.IndexOutside)
  }

  predicate VerifyProofClaimInclusion(h: Hash, leaf: LeafHash, batch: Batch, inclusion: Inclusion) {
    && Bound(inclusion.claim, batch.binding)
    && Fold(h, leaf(inclusion.claim), inclusion.siblings) == batch.claimRoot
  }

  /** Every claim of a created batch has an inclusion that verifies. */
  lemma InclusionVerifies(h: Hash, leaf: LeafHash, batch: Batch, claimIndex: nat)
    requires ValidBatch(h, leaf, batch) && claimIndex < |batch.claims|
    ensures var r := ProofClaimInclusion(h, leaf, batch, claimIndex);
            r.Ok? && VerifyProofClaimInclusion(h, leaf, batch, r.value)
  {
    PathFoldsToRoot(h, Leaves(leaf, batch.claims), claimIndex);
  }

  /**
   A full-height inclusion that verifies is for a claim of the batch, and that
   claim is the only one of the batch for its receipt. The leaf hash is assumed
   to tell the presented claim from the batch's claims.
   */
  lemma VerifiedClaimIsListed(h: Hash, leaf: LeafHash, batch: Batch, inclusion: Inclusion, pairs: set<Pair>)
    requires ValidBatch(h, leaf, batch) && VerifyProofClaimInclusion(h, leaf, batch, inclusion)
    requires |inclusion.siblings| == Height(batch.claimCount)
    requires CollisionFree(h, pairs)
    requires PairsHashed(h, Leaves(leaf, batch.claims)) <= pairs
    requires PathPairs(h, leaf(inclusion.claim), inclusion.siblings) <= pairs
    requires forall c :: c in batch.claims && leaf(c) == leaf(inclusion.claim) ==> c == inclusion.claim
    ensures inclusion.claim in batch.claims && BindingOf(inclusion.claim) == batch.binding
    ensures forall c :: c in batch.claims && c.receiptId == inclusion.claim.receiptId ==> c == inclusion.claim
  {
    FullHeightPathIsMember(h, Leaves(leaf, batch.claims), leaf(inclusion.claim), inclusion.siblings, pairs);
  }
}
