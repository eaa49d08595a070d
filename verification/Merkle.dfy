/** AuxPoW proof construction (merged.rs).

    The two-argument Merkle hash `combine` and the transaction hash are arbitrary
    functions, so every statement here holds for every hash. */
module Merkle {
  import opened Options
  import opened Powers

  /** ceil(log2 n): the exponent of `next_power_of_two`. */
  function TreeHeight(n: nat): (h: nat)
    requires n >= 1
    ensures n <= Pow2(h)
    ensures h > 0 ==> Pow2(h - 1) < n
  {
    if n == 1 then 0 else 1 + TreeHeight((n + 1) / 2)
  }

  // ---- The reference tree ------------------------------------------------

  /** A parent of two nodes: an absent right child counts as `zero`, an absent left one makes
      the node absent. */
  function Join<H>(left: Option<H>, right: Option<H>, combine: (H, H) -> H, zero: H): Option<H> {
    match left
    case None => None
    case Some(l) => Some(combine(l, right.GetOr(zero)))
  }

  /** Root of the padded tree of the given height over the leaves from `lo` on; leaves past the
      end of the list are absent. */
  function Subtree<H>(leaves: seq<H>, lo: nat, height: nat, combine: (H, H) -> H, zero: H): Option<H>
    decreases height
  {
    if lo >= |leaves| then None
    else if height == 0 then Some(leaves[lo])
    else
      Join(Subtree(leaves, lo, height - 1, combine, zero),
           Subtree(leaves, lo + Pow2(height - 1), height - 1, combine, zero), combine, zero)
  }

  lemma {:induction false} SubtreePresent<H>(leaves: seq<H>, lo: nat, height: nat, combine: (H, H) -> H, zero: H)
    ensures Subtree(leaves, lo, height, combine, zero).Some? <==> lo < |leaves|
    decreases height
  {
    if lo < |leaves| && height > 0 {
      SubtreePresent(leaves, lo, height - 1, combine, zero);
    }
  }

  function MerkleRoot<H>(leaves: seq<H>, combine: (H, H) -> H, zero: H): H
    requires leaves != []
  {
    SubtreePresent(leaves, 0, TreeHeight(|leaves|), combine, zero);
    Subtree(leaves, 0, TreeHeight(|leaves|), combine, zero).value
  }

  // ---- Folding a branch (what the aux-proof verifier does) -------------

  function Fold<H>(leaf: H, branch: seq<H>, combine: (H, H) -> H): H {
    if branch == [] then leaf
    else combine(Fold(leaf, branch[..|branch| - 1], combine), branch[|branch| - 1])
  }

  /** The subtree hanging to the right of the coinbase path at level `j`. */
  function RightSibling<H>(leaves: seq<H>, j: nat, combine: (H, H) -> H, zero: H): H {
    Subtree(leaves, Pow2(j), j, combine, zero).GetOr(zero)
  }

  // ---- The level-by-level loop ------------------------------------------

  /** `level` holds the roots of all height-`j` subtrees of the padded tree, left to right. */
  ghost predicate IsLevel<H>(level: seq<Option<H>>, leaves: seq<H>, j: nat, combine: (H, H) -> H, zero: H) {
    forall i :: 0 <= i < |level| ==> level[i] == Node(leaves, i, j, combine, zero)
  }

  ghost function Node<H>(leaves: seq<H>, i: nat, j: nat, combine: (H, H) -> H, zero: H): Option<H> {
    Subtree(leaves, i * Pow2(j), j, combine, zero)
  }

  lemma ParentNode<H>(leaves: seq<H>, i: nat, j: nat, combine: (H, H) -> H, zero: H)
    ensures Node(leaves, i, j + 1, combine, zero)
         == Join(Node(leaves, 2 * i, j, combine, zero), Node(leaves, 2 * i + 1, j, combine, zero), combine, zero)
  {
    var half := Pow2(j);
    assert i * Pow2(j + 1) == (2 * i) * half;
    assert (2 * i + 1) * half == (2 * i) * half + half;
    SubtreePresent(leaves, (2 * i) * half, j, combine, zero);
  }

  /** The second node of a level is the right sibling of the coinbase path. */
  lemma SecondNode<H>(leaves: seq<H>, j: nat, combine: (H, H) -> H, zero: H)
    ensures Node(leaves, 1, j, combine, zero).GetOr(zero) == RightSibling(leaves, j, combine, zero)
  {
  }

  lemma FirstNode<H>(leaves: seq<H>, j: nat, combine: (H, H) -> H, zero: H)
    ensures Node(leaves, 0, j, combine, zero) == Subtree(leaves, 0, j, combine, zero)
  {
  }

  lemma FoldSnoc<H>(leaf: H, branch: seq<H>, x: H, combine: (H, H) -> H)
    ensures Fold(leaf, branch + [x], combine) == combine(Fold(leaf, branch, combine), x)
  {
  }

  /** What the loop knows after `j` levels: the current level, and the branch so far. */
  ghost predicate OnPath<H>(level: seq<Option<H>>, branch: seq<H>, leaves: seq<H>, j: nat, height: nat,
                            combine: (H, H) -> H, zero: H)
  {
    && leaves != [] && j <= height && |level| == Pow2(height - j) && |branch| == j
    && IsLevel(level, leaves, j, combine, zero)
    && level[0] == Some(Fold(leaves[0], branch, combine))
    && forall i :: 0 <= i < |branch| ==> branch[i] == RightSibling(leaves, i, combine, zero)
  }

  lemma ClimbOneLevel<H>(level: seq<Option<H>>, next: seq<Option<H>>, branch: seq<H>, leaves: seq<H>, j: nat,
                         height: nat, combine: (H, H) -> H, zero: H)
    requires OnPath(level, branch, leaves, j, height, combine, zero) && |level| > 1
    requires |next| == |level| / 2 && IsLevel(next, leaves, j + 1, combine, zero)
    ensures j < height
    ensures OnPath(next, branch + [level[1].GetOr(zero)], leaves, j + 1, height, combine, zero)
  {
    var sibling := level[1].GetOr(zero);
    assert |next| == Pow2(height - (j + 1));
    FoldSnoc(leaves[0], branch, sibling, combine);
    ParentNode(leaves, 0, j, combine, zero);
    SecondNode(leaves, j, combine, zero);
    assert next[0] == Node(leaves, 0, j + 1, combine, zero);
    assert level[0] == Node(leaves, 0, j, combine, zero);
    assert level[1] == Node(leaves, 1, j, combine, zero);
  }

  /** One pass over the pairs of a level. */
  method NextLevel<H>(level: seq<Option<H>>, leaves: seq<H>, ghost j: nat, combine: (H, H) -> H, zero: H)
    returns (next: seq<Option<H>>)
    requires |level| % 2 == 0
    requires IsLevel(level, leaves, j, combine, zero)
    ensures |next| == |level| / 2
    ensures IsLevel(next, leaves, j + 1, combine, zero)
  {
    next := [];
    var k := 0;
    while k < |level|
      invariant k % 2 == 0 && k <= |level| && |next| == k / 2
      invariant IsLevel(next, leaves, j + 1, combine, zero)
    {
      var combined := Join(level[k], level[k + 1], combine, zero);
      ParentNode(leaves, k / 2, j, combine, zero);
      next := next + [combined];
      k := k + 2;
    }
  }

  function Hashes<Tx, H>(txs: seq<Tx>, hash: Tx -> H): (s: seq<H>)
    ensures |s| == |txs|
    ensures forall i :: 0 <= i < |txs| ==> s[i] == hash(txs[i])
  {
    seq(|txs|, i requires 0 <= i < |txs| => hash(txs[i]))
  }

  /** The first level: the hashes, then absent leaves. */
  function Padded<H>(leaves: seq<H>, size: nat): (level: seq<Option<H>>)
    ensures |level| == size
    ensures forall i :: 0 <= i < size ==> level[i] == if i < |leaves| then Some(leaves[i]) else None
  {
    seq(size, i requires i >= 0 => if i < |leaves| then Some(leaves[i]) else None)
  }

  lemma StartOfPath<H>(level: seq<Option<H>>, leaves: seq<H>, height: nat, combine: (H, H) -> H, zero: H)
    requires leaves != [] && |level| == Pow2(height)
    requires forall i :: 0 <= i < |level| ==> level[i] == if i < |leaves| then Some(leaves[i]) else None
    ensures OnPath(level, [], leaves, 0, height, combine, zero)
  {
    forall i | 0 <= i < |level| ensures level[i] == Node(leaves, i, 0, combine, zero) {
      assert i * Pow2(0) == i;
    }
  }

  /** The branch of a non-empty list: the right siblings, folding to the root. */
  ghost predicate IsBranch<H>(branch: seq<H>, leaves: seq<H>, combine: (H, H) -> H, zero: H)
    requires leaves != []
  {
    && |branch| == TreeHeight(|leaves|)
    && Fold(leaves[0], branch, combine) == MerkleRoot(leaves, combine, zero)
    && forall j :: 0 <= j < |branch| ==> branch[j] == RightSibling(leaves, j, combine, zero)
  }

  lemma SingleLeaf<H>(leaves: seq<H>, combine: (H, H) -> H, zero: H)
    requires |leaves| == 1
    ensures IsBranch([], leaves, combine, zero)
  {
  }

  lemma EvenLevel(n: nat)
    requires Pow2(n) > 1
    ensures n > 0 && Pow2(n) % 2 == 0
  {
  }

  lemma EndOfPath<H>(level: seq<Option<H>>, branch: seq<H>, leaves: seq<H>, height: nat, combine: (H, H) -> H, zero: H)
    requires OnPath(level, branch, leaves, height, height, combine, zero) && height == TreeHeight(|leaves|)
    ensures IsBranch(branch, leaves, combine, zero)
  {
    FirstNode(leaves, height, combine, zero);
    assert level[0] == Node(leaves, 0, height, combine, zero);
  }

  /** `coinbase_merkle_branch`: the branch folds the coinbase hash to the reference root,
      for every number of transactions, and is exactly the list of right siblings. */
  method CoinbaseMerkleBranch<Tx, H>(txs: seq<Tx>, hash: Tx -> H, combine: (H, H) -> H, zero: H)
    returns (branch: seq<H>)
    ensures txs == [] ==> branch == []
    ensures txs != [] ==> IsBranch(branch, Hashes(txs, hash), combine, zero)
  {
    if |txs| <= 1 {
      if |txs| == 1 { SingleLeaf(Hashes(txs, hash), combine, zero); }
      return [];
    }
    var leaves := Hashes(txs, hash);
    var height := TreeHeight(|txs|);
    var level := Padded(leaves, Pow2(height));
    branch := [];
    var idx := 0;
    ghost var j := 0;
    StartOfPath(level, leaves, height, combine, zero);
    while |level| > 1
      invariant idx == 0 && OnPath(level, branch, leaves, j, height, combine, zero)
      decreases height - j
    {
      EvenLevel(height - j);
      var sibling := if idx % 2 == 0 then idx + 1 else idx - 1;
      var next := NextLevel(level, leaves, j, combine, zero);
      ClimbOneLevel(level, next, branch, leaves, j, height, combine, zero);
      branch := branch + [level[sibling].GetOr(zero)];
      idx := idx / 2;
      level := next;
      j := j + 1;
    }
    EndOfPath(level, branch, leaves, height, combine, zero);
  }

  // ---- What the proof binds ----------------------------------------------

  ghost predicate HasCollision<H(!new)>(combine: (H, H) -> H) {
    exists a, b, c, d :: (a != c || b != d) && combine(a, b) == combine(c, d)
  }

  /** A folded proof binds both the coinbase and the whole branch: two different proofs of
      the same depth with the same root exhibit a collision of the Merkle hash. */
  lemma {:induction false} ProofBindsCoinbase<H(!new)>(leaf: H, branch: seq<H>, leaf': H, branch': seq<H>,
                                                        combine: (H, H) -> H)
    requires |branch| == |branch'|
    requires Fold(leaf, branch, combine) == Fold(leaf', branch', combine)
    ensures (leaf == leaf' && branch == branch') || HasCollision(combine)
  {
    if branch != [] && !HasCollision(combine) {
      var n := |branch| - 1;
      ProofBindsCoinbase(leaf, branch[..n], leaf', branch'[..n], combine);
      assert branch == branch[..n] + [branch[n]] && branch' == branch'[..n] + [branch'[n]];
    }
  }

  // ---- Assembling the aux block --------------------------------------------

  datatype AuxProof<Header, Tx, H> = AuxProof(parentHeader: Header, coinbase: Tx, branch: seq<H>)
  datatype Block<Header, Tx> = Block(header: Header, txs: seq<Tx>)
  datatype AuxBlock<Header, Tx, H> = AuxBlock(header: Header, aux: AuxProof<Header, Tx, H>, txs: seq<Tx>)

  /** What the ZKas node checks: folding the coinbase hash gives the parent's Merkle root. */
  predicate VerifiesInclusion<Header, Tx, H(==)>(p: AuxProof<Header, Tx, H>, merkleRoot: Header -> H, hash: Tx -> H,
                                                 combine: (H, H) -> H) {
    Fold(hash(p.coinbase), p.branch, combine) == merkleRoot(p.parentHeader)
  }

  /** `assemble_aux_block`: for every solved parent whose header carries the root of its own
      transactions the assembled proof passes inclusion, names that parent and its first
      transaction, and the stashed ZKas header and transactions are carried unchanged. */
  method AssembleAuxBlock<Header, Tx, H(==)>(parent: Block<Header, Tx>, fc: Block<Header, Tx>, merkleRoot: Header -> H,
                                             hash: Tx -> H, combine: (H, H) -> H, zero: H)
    returns (r: AuxBlock<Header, Tx, H>)
    requires parent.txs != []
    ensures r.header == fc.header && r.txs == fc.txs
    ensures r.aux.parentHeader == parent.header && r.aux.coinbase == parent.txs[0]
    ensures VerifiesInclusion(r.aux, merkleRoot, hash, combine)
       <==> merkleRoot(parent.header) == MerkleRoot(Hashes(parent.txs, hash), combine, zero)
  {
    var branch := CoinbaseMerkleBranch(parent.txs, hash, combine, zero);
    r := AuxBlock(fc.header, AuxProof(parent.header, parent.txs[0], branch), fc.txs);
  }
}
