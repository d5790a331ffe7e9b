/**
 The Merkle tree over account state. Hashing is ideal: the two domain-separated
 hashes are free constructors, and no account or node hashes to the empty root.
 */
module Merkle {
  import opened Common
  import opened Accounts

  datatype Hash =
    | Empty
    | Leaf(key: Pubkey, account: StoredAccount)
    | Branch(left: Hash, right: Hash)

  datatype Proof = Proof(leaf: Hash, index: nat, siblings: seq<Hash>)

  // ---- building ----

  /** The node above position `2 * i`; the last of an odd level is its own sibling. */
  function PairUp(level: seq<Hash>, i: nat): Hash
    requires 2 * i < |level|
  {
    Branch(level[2 * i], if 2 * i + 1 < |level| then level[2 * i + 1] else level[2 * i])
  }

  function Parents(level: seq<Hash>): seq<Hash> {
    seq((|level| + 1) / 2, i requires 0 <= i < (|level| + 1) / 2 => PairUp(level, i))
  }

  function Root(level: seq<Hash>): Hash
    decreases |level|
  {
    if |level| == 0 then Empty
    else if |level| == 1 then level[0]
    else Root(Parents(level))
  }

  method ParentLevel(level: seq<Hash>) returns (next: seq<Hash>)
    ensures next == Parents(level)
  {
    next := [];
    var i := 0;
    while i < |level|
      invariant 0 <= i <= |level| + 1 && i % 2 == 0
      invariant |next| == i / 2
      invariant i / 2 <= (|level| + 1) / 2
      invariant forall j :: 0 <= j < |next| ==> next[j] == PairUp(level, j)
    {
      var l := level[i];
      var r := if i + 1 < |level| then level[i + 1] else l;
      next := next + [Branch(l, r)];
      i := i + 2;
    }
  }

  method MerkleRoot(leaves: seq<Hash>) returns (root: Hash)
    ensures root == Root(leaves)
  {
    if |leaves| == 0 {
      return Empty;
    }
    var level := leaves;
    while |level| > 1
      invariant |level| > 0 && Root(level) == Root(leaves)
      decreases |level|
    {
      level := ParentLevel(level);
    }
    root := level[0];
  }

  // ---- proofs ----

  function SiblingAt(level: seq<Hash>, idx: nat): Hash
    requires idx < |level|
  {
    var pair := if idx % 2 == 0 then idx + 1 else idx - 1;
    if pair < |level| then level[pair] else level[idx]
  }

  function Siblings(level: seq<Hash>, idx: nat): seq<Hash>
    requires idx < |level|
    decreases |level|
  {
    if |level| == 1 then [] else [SiblingAt(level, idx)] + Siblings(Parents(level), idx / 2)
  }

  /** `build_proof`: nothing for an index out of range. */
  method BuildProof(leaves: seq<Hash>, index: nat) returns (p: Option<Proof>)
    ensures p == if index < |leaves| then Some(Proof(leaves[index], index, Siblings(leaves, index))) else None
  {
    if index >= |leaves| {
      return None;
    }
    var siblings: seq<Hash> := [];
    var idx: nat := index;
    var level := leaves;
    while |level| > 1
      invariant idx < |level|
      invariant siblings + Siblings(level, idx) == Siblings(leaves, index)
      decreases |level|
    {
      var sib := SiblingAt(level, idx);
      assert siblings + Siblings(level, idx) == (siblings + [sib]) + Siblings(Parents(level), idx / 2);
      siblings := siblings + [sib];
      level := ParentLevel(level);
      idx := idx / 2;
    }
    assert siblings + [] == siblings;
    p := Some(Proof(leaves[index], index, siblings));
  }

  function Combine(h: Hash, idx: nat, sibling: Hash): Hash {
    if idx % 2 == 0 then Branch(h, sibling) else Branch(sibling, h)
  }

  /** The root a proof attests to. */
  function Fold(h: Hash, idx: nat, siblings: seq<Hash>): Hash
    decreases |siblings|
  {
    if siblings == [] then h else Fold(Combine(h, idx, siblings[0]), idx / 2, siblings[1..])
  }

  predicate Accepts(p: Proof, root: Hash) {
    Fold(p.leaf, p.index, p.siblings) == root
  }

  method Verify(p: Proof, root: Hash) returns (ok: bool)
    ensures ok == Accepts(p, root)
  {
    var h, idx := p.leaf, p.index;
    for i := 0 to |p.siblings|
      invariant Fold(h, idx, p.siblings[i..]) == Fold(p.leaf, p.index, p.siblings)
    {
      h := Combine(h, idx, p.siblings[i]);
      idx := idx / 2;
      assert p.siblings[i..][1..] == p.siblings[i + 1..];
    }
    ok := h == root;
  }

  /** `verify_account_in_state`: the leaf must be the caller's own account. */
  method VerifyAccount(key: Pubkey, account: StoredAccount, p: Proof, root: Hash) returns (ok: bool)
    ensures ok == (p.leaf == Leaf(key, account) && Accepts(p, root))
  {
    if Leaf(key, account) != p.leaf {
      return false;
    }
    ok := Verify(p, root);
  }

  // ---- completeness ----

  lemma CombineIsParent(level: seq<Hash>, idx: nat)
    requires idx < |level|
    ensures idx / 2 < |Parents(level)|
    ensures Combine(level[idx], idx, SiblingAt(level, idx)) == Parents(level)[idx / 2]
  {
  }

  /** The proof built for any position of any leaf list verifies. */
  lemma {:induction false} BuiltProofAccepted(leaves: seq<Hash>, idx: nat)
    requires idx < |leaves|
    ensures Accepts(Proof(leaves[idx], idx, Siblings(leaves, idx)), Root(leaves))
    decreases |leaves|
  {
    if |leaves| > 1 {
      CombineIsParent(leaves, idx);
      BuiltProofAccepted(Parents(leaves), idx / 2);
    }
  }

  // ---- soundness ----

  /** The leaves of a tree. */
  function LeafSet(h: Hash): set<Hash> {
    match h
    case Empty => {}
    case Leaf(_, _) => {h}
    case Branch(l, r) => LeafSet(l) + LeafSet(r)
  }

  lemma {:induction false} FoldKeepsLeaves(h: Hash, idx: nat, siblings: seq<Hash>)
    ensures LeafSet(h) <= LeafSet(Fold(h, idx, siblings))
    decreases |siblings|
  {
    if siblings != [] {
      FoldKeepsLeaves(Combine(h, idx, siblings[0]), idx / 2, siblings[1..]);
    }
  }

  /** Duplicating the last node adds no leaves. */
  lemma {:induction false} RootLeaves(level: seq<Hash>, x: Hash)
    requires x in LeafSet(Root(level))
    ensures exists i :: 0 <= i < |level| && x in LeafSet(level[i])
    decreases |level|
  {
    if |level| > 1 {
      RootLeaves(Parents(level), x);
      var i :| 0 <= i < |Parents(level)| && x in LeafSet(Parents(level)[i]);
      assert Parents(level)[i] == PairUp(level, i);
      if x in LeafSet(level[2 * i]) {
      } else {
        assert x in LeafSet(level[2 * i + 1]);
      }
    }
  }

  predicate AllLeaves(level: seq<Hash>) {
    forall i :: 0 <= i < |level| ==> level[i].Leaf?
  }

  /** Any accepted proof of a leaf, of any length, names a leaf of the list. */
  lemma AcceptedIsMember(leaves: seq<Hash>, p: Proof)
    requires AllLeaves(leaves) && p.leaf.Leaf? && Accepts(p, Root(leaves))
    ensures p.leaf in leaves
  {
    FoldKeepsLeaves(p.leaf, p.index, p.siblings);
    RootLeaves(leaves, p.leaf);
  }

  // ---- trees of one height ----

  /** Every path of the tree has length `d` and ends in a leaf. */
  predicate Uniform(h: Hash, d: nat) {
    match h
    case Empty => false
    case Leaf(_, _) => d == 0
    case Branch(l, r) => d > 0 && Uniform(l, d - 1) && Uniform(r, d - 1)
  }

  predicate UniformLevel(level: seq<Hash>, d: nat) {
    forall i :: 0 <= i < |level| ==> Uniform(level[i], d)
  }

  lemma {:induction false} UniformOnce(h: Hash, d: nat, e: nat)
    requires Uniform(h, d) && Uniform(h, e)
    ensures d == e
  {
    if h.Branch? {
      UniformOnce(h.left, d - 1, e - 1);
    }
  }

  lemma ParentsUniform(level: seq<Hash>, d: nat)
    requires UniformLevel(level, d)
    ensures UniformLevel(Parents(level), d + 1)
  {
  }

  /** Levels above a level of `n` nodes. */
  function Height(n: nat): nat {
    if n <= 1 then 0 else 1 + Height((n + 1) / 2)
  }

  lemma {:induction false} RootUniform(level: seq<Hash>, d: nat)
    requires UniformLevel(level, d) && |level| > 0
    ensures Uniform(Root(level), d + Height(|level|))
    decreases |level|
  {
    if |level| > 1 {
      ParentsUniform(level, d);
      RootUniform(Parents(level), d + 1);
    }
  }

  /** Folding over a uniform result unwinds one level per sibling. */
  lemma {:induction false} FoldUnwinds(h: Hash, idx: nat, siblings: seq<Hash>, d: nat)
    requires Uniform(Fold(h, idx, siblings), d)
    ensures |siblings| <= d && Uniform(h, d - |siblings|)
    decreases |siblings|
  {
    if siblings != [] {
      FoldUnwinds(Combine(h, idx, siblings[0]), idx / 2, siblings[1..], d);
    }
  }

  /** At an index in range only the leaf there, with the built siblings, is accepted. */
  lemma {:induction false} FoldPinsPosition(level: seq<Hash>, d: nat, h: Hash, idx: nat, siblings: seq<Hash>)
    requires UniformLevel(level, d) && Uniform(h, d) && idx < |level|
    requires Fold(h, idx, siblings) == Root(level)
    ensures h == level[idx] && siblings == Siblings(level, idx)
    decreases |level|
  {
    var top := d + Height(|level|);
    RootUniform(level, d);
    FoldUnwinds(h, idx, siblings, top);
    UniformOnce(h, d, top - |siblings|);
    if |level| > 1 {
      var up := Combine(h, idx, siblings[0]);
      ParentsUniform(level, d);
      FoldUnwinds(up, idx / 2, siblings[1..], top);
      FoldPinsPosition(Parents(level), d + 1, up, idx / 2, siblings[1..]);
      CombineIsParent(level, idx);
      assert siblings == [siblings[0]] + siblings[1..];
    }
  }

  lemma LeavesUniform(leaves: seq<Hash>)
    requires AllLeaves(leaves)
    ensures UniformLevel(leaves, 0)
  {
  }

  /** Verification at an index in range accepts exactly what `build_proof` returns. */
  lemma AcceptedIffBuilt(leaves: seq<Hash>, p: Proof)
    requires AllLeaves(leaves) && p.leaf.Leaf? && p.index < |leaves|
    ensures Accepts(p, Root(leaves))
            <==> p == Proof(leaves[p.index], p.index, Siblings(leaves, p.index))
  {
    LeavesUniform(leaves);
    if Accepts(p, Root(leaves)) {
      FoldPinsPosition(leaves, 0, p.leaf, p.index, p.siblings);
    } else {
      BuiltProofAccepted(leaves, p.index);
    }
  }

  /** The duplicated tail also answers to the index past the end. */
  lemma DuplicateIndexAccepted(x: Hash, y: Hash, z: Hash)
    ensures Accepts(Proof(z, 3, Siblings([x, y, z], 2)), Root([x, y, z]))
  {
    var level := [x, y, z];
    var up := [Branch(x, y), Branch(z, z)];
    assert Parents(level) == up;
    assert Parents(up) == [Branch(up[0], up[1])];
    assert Root(level) == Root(up) == Root(Parents(up)) == Branch(up[0], up[1]);
    assert Siblings(level, 2) == [z, up[0]] by {
      assert Siblings(up, 1) == [up[0]];
    }
    var sibs := [z, up[0]];
    assert sibs[1..] == [up[0]] && [up[0]][1..] == [];
    assert Fold(z, 3, sibs) == Fold(Branch(z, z), 1, [up[0]]);
    assert Fold(Branch(z, z), 1, [up[0]]) == Fold(Branch(up[0], up[1]), 0, []);
  }

  // ---- binding ----

  predicate DistinctLevel(level: seq<Hash>) {
    forall i, j :: 0 <= i < j < |level| ==> level[i] != level[j]
  }

  lemma ParentsDistinct(level: seq<Hash>)
    requires DistinctLevel(level)
    ensures DistinctLevel(Parents(level))
  {
    var up := Parents(level);
    forall i, j | 0 <= i < j < |up|
      ensures up[i] != up[j]
    {
      assert level[2 * i] != level[2 * j];
    }
  }

  /** A level of distinct nodes is recovered from its parents, its parity included. */
  lemma ParentsInjective(a: seq<Hash>, b: seq<Hash>)
    requires DistinctLevel(a) && DistinctLevel(b) && Parents(a) == Parents(b)
    ensures a == b
  {
    var up := Parents(a);
    forall i | 0 <= i < |up|
      ensures PairUp(a, i) == PairUp(b, i)
    {
      assert Parents(a)[i] == PairUp(a, i) && Parents(b)[i] == PairUp(b, i);
    }
    assert up != [] ==> PairUp(a, |up| - 1) == PairUp(b, |up| - 1);
    assert |a| == |b|;
    forall i | 0 <= i < |a|
      ensures a[i] == b[i]
    {
      assert PairUp(a, i / 2) == PairUp(b, i / 2);
    }
  }

  lemma {:induction false} RootInjective(a: seq<Hash>, b: seq<Hash>, d: nat)
    requires a != [] && b != []
    requires UniformLevel(a, d) && UniformLevel(b, d) && DistinctLevel(a) && DistinctLevel(b)
    requires Root(a) == Root(b)
    ensures a == b
    decreases |a|
  {
    RootUniform(a, d);
    RootUniform(b, d);
    UniformOnce(Root(a), d + Height(|a|), d + Height(|b|));
    if |a| == 1 {
      assert |b| == 1;
    } else {
      ParentsUniform(a, d);
      ParentsUniform(b, d);
      ParentsDistinct(a);
      ParentsDistinct(b);
      RootInjective(Parents(a), Parents(b), d + 1);
      ParentsInjective(a, b);
    }
  }

  /** Lists of distinct leaves with one root are one list, whatever their lengths. */
  lemma RootBindsLeaves(a: seq<Hash>, b: seq<Hash>)
    requires AllLeaves(a) && AllLeaves(b) && DistinctLevel(a) && DistinctLevel(b)
    requires Root(a) == Root(b)
    ensures a == b
  {
    LeavesUniform(a);
    LeavesUniform(b);
    if a == [] || b == [] {
      if a != [] {
        RootUniform(a, 0);
      }
      if b != [] {
        RootUniform(b, 0);
      }
    } else {
      RootInjective(a, b, 0);
    }
  }

  /** Without distinctness the duplicate-last rule does collide. */
  lemma RepeatedLeavesCollide(x: Hash, y: Hash, z: Hash)
    ensures Root([x, y, z]) == Root([x, y, z, z])
  {
    assert Parents([x, y, z]) == [Branch(x, y), Branch(z, z)];
    assert Parents([x, y, z, z]) == [Branch(x, y), Branch(z, z)];
  }
}
