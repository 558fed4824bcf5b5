/**
 Sorted-pair Merkle trees over 32-byte values, as the event indexer, the
 organisational ledger, the anchor verifier and the proof batches build them.

 The pair hash is a parameter. Digests are finite, so no hash is injective on
 all pairs; the soundness lemmas assume that it has no collision among the
 pairs hashed by the computations they compare.
 */
module Merkle {
  import opened Arithmetic
  import opened Wrappers

  const TWO_256: int := 0x1_0000000000000000_0000000000000000_0000000000000000_0000000000000000

  /** The value of a bytes32. Lower-case fixed-width hex orders as the values do. */
  type Digest = d: int | 0 <= d < TWO_256

  type Hash = (Digest, Digest) -> Digest

  /** A caller's argument: a bytes32 in hex of either case, or anything else. */
  datatype Bytes32 = Hex(digest: Digest) | Malformed

  datatype MerkleError = EmptyIds | MalformedId(at: nat) | IndexOutside

  function HashPair(h: Hash, left: Digest, right: Digest): Digest {
    if left <= right then h(left, right) else h(right, left)
  }

  /** The smaller digest is hashed first, whichever side it comes from. */
  lemma PairSorted(h: Hash, low: Digest, high: Digest)
    requires low <= high
    ensures HashPair(h, low, high) == HashPair(h, high, low) == h(low, high)
  {
  }

  // -------------------------------------------------------------------------
  // Specification: levels, root, path and fold
  // -------------------------------------------------------------------------

  /** The level above: neighbours are paired, an odd last node with itself. */
  function NextLevel(h: Hash, level: seq<Digest>): (next: seq<Digest>)
    ensures |next| == (|level| + 1) / 2
  {
    if |level| == 0 then []
    else if |level| == 1 then [HashPair(h, level[0], level[0])]
    else [HashPair(h, level[0], level[1])] + NextLevel(h, level[2..])
  }

  /** The right-hand node of the pair that starts at even position c. */
  function RightOf(level: seq<Digest>, c: nat): Digest
    requires c < |level|
  {
    if c + 1 < |level| then level[c + 1] else level[c]
  }

  /** The other node of the pair that holds position i: level[i ^ 1] ?? level[i]. */
  function Sibling(level: seq<Digest>, i: nat): Digest
    requires i < |level|
  {
    var s := if i % 2 == 0 then i + 1 else i - 1;
    if s < |level| then level[s] else level[i]
  }

  function Root(h: Hash, level: seq<Digest>): Digest
    requires |level| > 0
    decreases |level|
  {
    if |level| == 1 then level[0] else Root(h, NextLevel(h, level))
  }

  /** Number of pairing rounds from n nodes to one. */
  function Height(n: nat): nat
  {
    if n <= 1 then 0 else 1 + Height((n + 1) / 2)
  }

  function Path(h: Hash, level: seq<Digest>, i: nat): (path: seq<Digest>)
    requires i < |level|
    ensures |path| == Height(|level|)
    decreases |level|
  {
    if |level| == 1 then []
    else [Sibling(level, i)] + Path(h, NextLevel(h, level), i / 2)
  }

  /** What a verifier computes: the candidate hashed with each sibling in turn. */
  function Fold(h: Hash, leaf: Digest, path: seq<Digest>): Digest
    decreases path
  {
    if path == [] then leaf else Fold(h, HashPair(h, leaf, path[0]), path[1..])
  }

  /** The level k rounds above the ids. */
  function LevelAt(h: Hash, level: seq<Digest>, k: nat): (r: seq<Digest>)
    requires |level| > 0
    ensures |r| > 0
    decreases k
  {
    if k == 0 then level else LevelAt(h, NextLevel(h, level), k - 1)
  }

  function AllDigests(ids: seq<Bytes32>): (r: Result<seq<Digest>, MerkleError>)
    ensures r.Ok? <==> forall i :: 0 <= i < |ids| ==> ids[i].Hex?
    ensures r.Ok? ==> |r.value| == |ids| && forall i :: 0 <= i < |ids| ==> r.value[i] == ids[i].digest
    ensures r.Err? ==> exists i: nat :: i < |ids| && r.error == MalformedId(i) && ids[i].Malformed?
  {
    DigestsFrom(ids, 0)
  }

  function DigestsFrom(ids: seq<Bytes32>, i: nat): (r: Result<seq<Digest>, MerkleError>)
    requires i <= |ids|
    ensures r.Ok? <==> forall k :: i <= k < |ids| ==> ids[k].Hex?
    ensures r.Ok? ==> |r.value| == |ids| - i && forall k :: i <= k < |ids| ==> r.value[k - i] == ids[k].digest
    ensures r.Err? ==> exists k: nat :: i <= k < |ids| && r.error == MalformedId(k) && ids[k].Malformed?
    decreases |ids| - i
  {
    if i == |ids| then Ok([])
    else if ids[i].Malformed? then Err(MalformedId(i))
    else match DigestsFrom(ids, i + 1)
      case Err(e) => Err(e)
      case Ok(rest) => Ok([ids[i].digest] + rest)
  }

  // -------------------------------------------------------------------------
  // The source's loops
  // -------------------------------------------------------------------------

  method PairLevel(h: Hash, level: seq<Digest>) returns (next: seq<Digest>)
    ensures next == NextLevel(h, level)
  {
    next := [];
    var index := 0;
    while index < |level|
      invariant 0 <= index <= |level| + 1 && index % 2 == 0
      invariant |next| == index / 2 <= |NextLevel(h, level)|
      invariant next == NextLevel(h, level)[..|next|]
    {
      NextLevelAt(h, level, index / 2);
      next := next + [HashPair(h, level[index], RightOf(level, index))];
      index := index + 2;
    }
  }

  method MerkleRoot(h: Hash, ids: seq<Bytes32>) returns (r: Result<Digest, MerkleError>)
    ensures ids == [] ==> r == Err(EmptyIds)
    ensures ids != [] ==> r.Ok? == AllDigests(ids).Ok?
    ensures ids != [] && AllDigests(ids).Ok? ==> r == Ok(Root(h, AllDigests(ids).value))
    ensures ids != [] && AllDigests(ids).Err? ==> r == Err(AllDigests(ids).error)
  {
    if |ids| == 0 {
      return Err(EmptyIds);
    }
    var start := AllDigests(ids);
    if start.Err? {
      return Err(start.error);
    }
    var level := start.value;
    while |level| > 1
      invariant |level| > 0 && Root(h, level) == Root(h, start.value)
      decreases |level|
    {
      level := PairLevel(h, level);
    }
    return Ok(level[0]);
  }

  method MembershipProof(h: Hash, ids: seq<Bytes32>, leafIndex: int) returns (r: Result<seq<Digest>, MerkleError>)
    ensures !(0 <= leafIndex < |ids|) ==> r == Err(IndexOutside)
    ensures 0 <= leafIndex < |ids| && AllDigests(ids).Ok? ==> r == Ok(Path(h, AllDigests(ids).value, leafIndex))
    ensures 0 <= leafIndex < |ids| && AllDigests(ids).Err? ==> r == Err(AllDigests(ids).error)
  {
    if leafIndex < 0 || leafIndex >= |ids| {
      return Err(IndexOutside);
    }
    var start := AllDigests(ids);
    if start.Err? {
      return Err(start.error);
    }
    var index := leafIndex;
    var level := start.value;
    var siblings: seq<Digest> := [];
    while |level| > 1
      invariant 0 <= index < |level|
      invariant siblings + Path(h, level, index) == Path(h, start.value, leafIndex)
      decreases |level|
    {
      siblings := siblings + [Sibling(level, index)];
      level := PairLevel(h, level);
      index := index / 2;
    }
    assert siblings + [] == siblings;
    return Ok(siblings);
  }

  /** Malformed arguments make the verifier refuse, as an accepting run needs all three. */
  method VerifyMembership(h: Hash, id: Bytes32, proof: seq<Bytes32>, root: Bytes32) returns (ok: bool)
    ensures ok <==> id.Hex? && root.Hex? && AllDigests(proof).Ok?
                    && Fold(h, id.digest, AllDigests(proof).value) == root.digest
  {
    var siblings := AllDigests(proof);
    if id.Malformed? || root.Malformed? || siblings.Err? {
      return false;
    }
    var computed := id.digest;
    var index := 0;
    while index < |proof|
      invariant 0 <= index <= |proof|
      invariant Fold(h, computed, siblings.value[index..]) == Fold(h, id.digest, siblings.value)
    {
      computed := HashPair(h, computed, proof[index].digest);
      index := index + 1;
    }
    return computed == root.digest;
  }

  // -------------------------------------------------------------------------
  // Completeness: every path folds to the root and has length ceil(log2 n)
  // -------------------------------------------------------------------------

  lemma {:induction false} NextLevelAt(h: Hash, level: seq<Digest>, k: nat)
    requires 2 * k < |level|
    ensures NextLevel(h, level)[k] == HashPair(h, level[2 * k], RightOf(level, 2 * k))
    decreases k
  {
    if k > 0 {
      NextLevelAt(h, level[2..], k - 1);
    }
  }

  lemma {:induction false} PathFoldsToRoot(h: Hash, ids: seq<Digest>, i: nat)
    requires i < |ids|
    ensures Fold(h, ids[i], Path(h, ids, i)) == Root(h, ids)
    decreases |ids|
  {
    if |ids| > 1 {
      NextLevelAt(h, ids, i / 2);
      PathFoldsToRoot(h, NextLevel(h, ids), i / 2);
    }
  }

  /** The height is ceil(log2 n). */
  lemma {:induction false} HeightIsCeilLog2(n: nat)
    requires n >= 1
    ensures n <= Pow2(Height(n))
    ensures n > 1 ==> Pow2(Height(n) - 1) < n
  {
    if n > 1 {
      HeightIsCeilLog2((n + 1) / 2);
    }
  }

  // -------------------------------------------------------------------------
  // Soundness
  // -------------------------------------------------------------------------

  type Pair = (Digest, Digest)

  function Sorted(a: Digest, b: Digest): Pair {
    if a <= b then (a, b) else (b, a)
  }

  /** The argument pairs hashed while computing the root. */
  function PairsHashed(h: Hash, level: seq<Digest>): set<Pair>
    decreases |level|
  {
    if |level| <= 1 then {}
    else (set c: nat | c < |level| && c % 2 == 0 :: Sorted(level[c], RightOf(level, c)))
         + PairsHashed(h, NextLevel(h, level))
  }

  function PathPairs(h: Hash, leaf: Digest, path: seq<Digest>): set<Pair>
    decreases path
  {
    if path == [] then {}
    else {Sorted(leaf, path[0])} + PathPairs(h, HashPair(h, leaf, path[0]), path[1..])
  }

  ghost predicate CollisionFree(h: Hash, pairs: set<Pair>) {
    forall p, q :: p in pairs && q in pairs && h(p.0, p.1) == h(q.0, q.1) ==> p == q
  }

  /** Each node above comes from a pair of nodes below. */
  lemma ParentOf(h: Hash, level: seq<Digest>, x: Digest) returns (c: nat)
    requires x in NextLevel(h, level)
    ensures c < |level| && c % 2 == 0 && x == HashPair(h, level[c], RightOf(level, c))
  {
    var k: nat :| k < |NextLevel(h, level)| && NextLevel(h, level)[k] == x;
    NextLevelAt(h, level, k);
    c := 2 * k;
  }

  /** Each node is in a pair whose hash is a node above. */
  lemma PairOf(h: Hash, level: seq<Digest>, x: Digest) returns (c: nat)
    requires x in level
    ensures c < |level| && c % 2 == 0 && (x == level[c] || x == RightOf(level, c))
    ensures HashPair(h, level[c], RightOf(level, c)) in NextLevel(h, level)
  {
    var i: nat :| i < |level| && level[i] == x;
    c := if i % 2 == 0 then i else i - 1;
    var k := c / 2;
    assert c == 2 * k;
    NextLevelAt(h, level, k);
    assert NextLevel(h, level)[k] in NextLevel(h, level);
  }

  /** Pairs with equal hashes hold the same two nodes. */
  lemma SamePair(h: Hash, a: Digest, b: Digest, c: Digest, d: Digest, pairs: set<Pair>)
    requires CollisionFree(h, pairs) && Sorted(a, b) in pairs && Sorted(c, d) in pairs
    requires HashPair(h, a, b) == HashPair(h, c, d)
    ensures {a, b} == {c, d}
  {
    var p, q := Sorted(a, b), Sorted(c, d);
    assert h(p.0, p.1) == h(q.0, q.1);
  }

  lemma LevelPairHashed(h: Hash, level: seq<Digest>, c: nat)
    requires |level| > 1 && c < |level| && c % 2 == 0
    ensures Sorted(level[c], RightOf(level, c)) in PairsHashed(h, level)
  {
  }

  /** A node whose parent is listed above b is listed in b. */
  lemma LevelDown(h: Hash, a: seq<Digest>, b: seq<Digest>, x: Digest, pairs: set<Pair>)
    requires |a| > 1 && |b| > 1
    requires CollisionFree(h, pairs) && PairsHashed(h, a) <= pairs && PairsHashed(h, b) <= pairs
    requires forall y :: y in NextLevel(h, a) ==> y in NextLevel(h, b)
    requires x in a
    ensures x in b
  {
    var c := PairOf(h, a, x);
    var d := ParentOf(h, b, HashPair(h, a[c], RightOf(a, c)));
    LevelPairHashed(h, a, c);
    LevelPairHashed(h, b, d);
    SamePair(h, a[c], RightOf(a, c), b[d], RightOf(b, d), pairs);
    assert x in {b[d], RightOf(b, d)};
  }

  /** Equal roots at equal height commit to the same set of ids. */
  lemma {:induction false} RootBindsIds(h: Hash, a: seq<Digest>, b: seq<Digest>, pairs: set<Pair>)
    requires |a| > 0 && |b| > 0 && Height(|a|) == Height(|b|)
    requires CollisionFree(h, pairs) && PairsHashed(h, a) <= pairs && PairsHashed(h, b) <= pairs
    requires Root(h, a) == Root(h, b)
    ensures forall x :: x in a <==> x in b
    decreases |a|
  {
    if |a| > 1 {
      RootBindsIds(h, NextLevel(h, a), NextLevel(h, b), pairs);
      forall x | x in a ensures x in b { LevelDown(h, a, b, x, pairs); }
      forall x | x in b ensures x in a { LevelDown(h, b, a, x, pairs); }
    }
  }

  /**
   A path no longer than the tree is high is accepted exactly for the nodes of
   one level: the paths of full height for the ids, shorter ones for inner nodes.
   */
  lemma {:induction false} AcceptedAtLevel(h: Hash, ids: seq<Digest>, x: Digest, path: seq<Digest>, pairs: set<Pair>)
    requires |ids| > 0 && |path| <= Height(|ids|)
    requires CollisionFree(h, pairs) && PairsHashed(h, ids) <= pairs && PathPairs(h, x, path) <= pairs
    requires Fold(h, x, path) == Root(h, ids)
    ensures x in LevelAt(h, ids, Height(|ids|) - |path|)
    decreases |ids|, |path|
  {
    if |path| < Height(|ids|) {
      AcceptedAtLevel(h, NextLevel(h, ids), x, path, pairs);
    } else if |ids| > 1 {
      var parent := HashPair(h, x, path[0]);
      AcceptedAtLevel(h, NextLevel(h, ids), parent, path[1..], pairs);
      var c := ParentOf(h, ids, parent);
      LevelPairHashed(h, ids, c);
      SamePair(h, ids[c], RightOf(ids, c), x, path[0], pairs);
      assert x in {ids[c], RightOf(ids, c)};
    }
  }

  /** A verifying path of exactly the tree's height starts at a listed id. */
  lemma FullHeightPathIsMember(h: Hash, ids: seq<Digest>, x: Digest, path: seq<Digest>, pairs: set<Pair>)
    requires |ids| > 0 && |path| == Height(|ids|)
    requires CollisionFree(h, pairs) && PairsHashed(h, ids) <= pairs && PathPairs(h, x, path) <= pairs
    requires Fold(h, x, path) == Root(h, ids)
    ensures x in ids
  {
    AcceptedAtLevel(h, ids, x, path, pairs);
  }

  /**
   Conversely every node of the k-th level has an accepted path of the remaining
   length, so a verifier that does not know the height also accepts inner nodes.
   */
  lemma {:induction false} LevelNodeAccepted(h: Hash, ids: seq<Digest>, k: nat, x: Digest) returns (path: seq<Digest>)
    requires |ids| > 0 && k <= Height(|ids|)
    requires x in LevelAt(h, ids, k)
    ensures |path| == Height(|ids|) - k && Fold(h, x, path) == Root(h, ids)
    decreases k
  {
    if k == 0 {
      var i: nat :| i < |ids| && ids[i] == x;
      PathFoldsToRoot(h, ids, i);
      path := Path(h, ids, i);
    } else {
      path := LevelNodeAccepted(h, NextLevel(h, ids), k - 1, x);
    }
  }

  /** Only the set is bound: an odd list and the list with its last id repeated share a root. */
  lemma RepeatedLastSharesRoot(h: Hash, ids: seq<Digest>)
    requires |ids| > 1 && |ids| % 2 == 1
    ensures Root(h, ids + [ids[|ids| - 1]]) == Root(h, ids)
    ensures Height(|ids| + 1) == Height(|ids|)
  {
    RepeatedLastSharesLevel(h, ids);
  }

  lemma RepeatedLastSharesLevel(h: Hash, ids: seq<Digest>)
    requires |ids| > 1 && |ids| % 2 == 1
    ensures NextLevel(h, ids + [ids[|ids| - 1]]) == NextLevel(h, ids)
  {
    var longer := ids + [ids[|ids| - 1]];
    var a, b := NextLevel(h, ids), NextLevel(h, longer);
    hide NextLevel, HashPair;
    forall k: nat | k < |a|
      ensures a[k] == b[k]
    {
      NextLevelAt(h, ids, k);
      NextLevelAt(h, longer, k);
    }
  }
}
