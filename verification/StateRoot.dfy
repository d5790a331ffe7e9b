/** The state root as a commitment to the whole account table. */
module StateRoot {
  import opened Common
  import opened Accounts
  import opened KeyOrder
  import opened Merkle

  type Table = map<Pubkey, StoredAccount>

  /** Every account's leaf, in ascending key order. */
  ghost function StateLeaves(t: Table): (leaves: seq<Hash>)
    ensures |leaves| == |t|
    ensures AllLeaves(leaves)
  {
    var keys := Ascending(t.Keys);
    seq(|keys|, i requires 0 <= i < |keys| => LeafAt(t, keys, i))
  }

  ghost function LeafAt(t: Table, keys: seq<Bytes>, i: nat): (h: Hash)
    requires Elements(keys) == t.Keys && i < |keys|
    ensures h.Leaf?
  {
    assert keys[i] in Elements(keys);
    var k: Pubkey := keys[i];
    Leaf(k, t[k])
  }

  ghost function StateRootOf(t: Table): Hash {
    Root(StateLeaves(t))
  }

  /** The leaves are exactly the table's entries, and no two are equal. */
  lemma LeavesAreEntries(t: Table)
    ensures DistinctLevel(StateLeaves(t))
    ensures forall k, a :: Leaf(k, a) in StateLeaves(t) <==> k in t && t[k] == a
  {
    var keys, leaves := Ascending(t.Keys), StateLeaves(t);
    assert forall i :: 0 <= i < |keys| ==> leaves[i] == LeafAt(t, keys, i);
    forall i, j | 0 <= i < j < |leaves|
      ensures leaves[i] != leaves[j]
    {
      LessIrreflexive(keys[i]);
    }
    forall k, a
      ensures Leaf(k, a) in leaves <==> k in t && t[k] == a
    {
      if k in t && t[k] == a {
        assert k in Elements(keys);
        var i :| 0 <= i < |keys| && keys[i] == k;
        assert leaves[i] == Leaf(k, a);
      }
    }
  }

  /** Binding: account tables of any two sizes with equal roots are equal. */
  lemma StateRootBinds(s: Table, t: Table)
    requires StateRootOf(s) == StateRootOf(t)
    ensures s == t
  {
    hide StateLeaves, Root, DistinctLevel;
    LeavesAreEntries(s);
    LeavesAreEntries(t);
    RootBindsLeaves(StateLeaves(s), StateLeaves(t));
    forall k | k in s
      ensures k in t && s[k] == t[k]
    {
      assert Leaf(k, s[k]) in StateLeaves(s);
    }
    forall k | k in t
      ensures k in s
    {
      assert Leaf(k, t[k]) in StateLeaves(t);
    }
  }

  /**
   Soundness: whatever its length or index, a proof that `verify_account_in_state`
   accepts shows that exactly those bytes are stored under exactly that key.
   */
  lemma AcceptedAccountIsStored(t: Table, key: Pubkey, account: StoredAccount, p: Proof)
    requires p.leaf == Leaf(key, account) && Accepts(p, StateRootOf(t))
    ensures key in t && t[key] == account
  {
    LeavesAreEntries(t);
    AcceptedIsMember(StateLeaves(t), p);
  }

  /** Completeness: every stored account has an accepted proof, the one `state_proof` builds. */
  lemma StoredAccountHasProof(t: Table, key: Pubkey) returns (p: Proof)
    requires key in t
    ensures p.leaf == Leaf(key, t[key]) && Accepts(p, StateRootOf(t))
  {
    LeavesAreEntries(t);
    assert Leaf(key, t[key]) in StateLeaves(t);
    var i :| 0 <= i < |StateLeaves(t)| && StateLeaves(t)[i] == Leaf(key, t[key]);
    BuiltProofAccepted(StateLeaves(t), i);
    p := Proof(StateLeaves(t)[i], i, Siblings(StateLeaves(t), i));
  }
}
