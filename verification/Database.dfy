/** The node's account table with its owner index and counter. */
module Database {
  import opened Common
  import opened Accounts
  import opened KeyOrder
  import opened Merkle
  import opened StateRoot

  const ZERO_KEY: Pubkey := seq(32, _ => 0)
  const MAX_KEY: Pubkey := seq(32, _ => 255)

  /** An owner-index entry: the owner's 32 bytes, then the account's. */
  function Composite(owner: Pubkey, key: Pubkey): (c: Bytes)
    ensures |c| == 64 && c[..32] == owner && c[32..] == key
  {
    owner + key
  }

  function IndexOf(t: Table): set<Bytes> {
    set k | k in t :: Composite(t[k].owner, k)
  }

  lemma CompositeInjective(o: Pubkey, k: Pubkey, p: Pubkey, j: Pubkey)
    requires Composite(o, k) == Composite(p, j)
    ensures o == p && k == j
  {
    assert o == Composite(o, k)[..32] && p == Composite(p, j)[..32];
    assert k == Composite(o, k)[32..] && j == Composite(p, j)[32..];
  }

  /** The upkeep one save performs: drop the stale entry, add the new one. */
  function Reindexed(t: Table, idx: set<Bytes>, key: Pubkey, a: StoredAccount): set<Bytes> {
    (if key in t && t[key].owner != a.owner then idx - {Composite(t[key].owner, key)} else idx)
    + {Composite(a.owner, key)}
  }

  lemma ReindexedIsIndex(t: Table, key: Pubkey, a: StoredAccount)
    ensures Reindexed(t, IndexOf(t), key, a) == IndexOf(t[key := a])
  {
    var u := t[key := a];
    forall e | e in Reindexed(t, IndexOf(t), key, a)
      ensures e in IndexOf(u)
    {
      if e == Composite(a.owner, key) {
        assert u[key] == a;
      } else {
        var k :| k in t && e == Composite(t[k].owner, k);
        assert k != key;
        assert u[k] == t[k];
      }
    }
    forall e | e in IndexOf(u)
      ensures e in Reindexed(t, IndexOf(t), key, a)
    {
      var k :| k in u && e == Composite(u[k].owner, k);
      if k != key {
        assert k in t && e in IndexOf(t);
        if key in t && e == Composite(t[key].owner, key) {
          CompositeInjective(u[k].owner, k, t[key].owner, key);
        }
      }
    }
  }

  // ---- runs of saves ----

  datatype Db = Db(accounts: Table, ownerIdx: set<Bytes>, accountCount: nat)

  /** The secondary index and the counter agree with the table. */
  predicate InStep(db: Db) {
    db.ownerIdx == IndexOf(db.accounts) && db.accountCount == |db.accounts|
  }

  function SaveOne(db: Db, key: Pubkey, a: StoredAccount): Db {
    Db(db.accounts[key := a], Reindexed(db.accounts, db.ownerIdx, key, a),
       if key in db.accounts then db.accountCount else db.accountCount + 1)
  }

  /** A batch written one key after another in the given order. */
  function SaveInOrder(db: Db, batch: Table, order: seq<Pubkey>): Db
    requires forall k :: k in order ==> k in batch
    decreases |order|
  {
    if order == [] then db else SaveInOrder(SaveOne(db, order[0], batch[order[0]]), batch, order[1..])
  }

  datatype Save = One(key: Pubkey, account: StoredAccount) | Batch(batch: Table, order: seq<Pubkey>)

  /** A batch's order lists each of its keys. */
  predicate WellOrdered(s: Save) {
    s.Batch? ==> Elements(s.order) == s.batch.Keys
  }

  function Perform(db: Db, s: Save): Db
    requires WellOrdered(s)
  {
    match s
    case One(key, account) => SaveOne(db, key, account)
    case Batch(batch, order) =>
      assert forall k :: k in order ==> k in Elements(order);
      SaveInOrder(db, batch, order)
  }

  function PerformAll(db: Db, saves: seq<Save>): Db
    requires forall i :: 0 <= i < |saves| ==> WellOrdered(saves[i])
    decreases |saves|
  {
    if saves == [] then db else PerformAll(Perform(db, saves[0]), saves[1..])
  }

  lemma SaveOneInStep(db: Db, key: Pubkey, a: StoredAccount)
    requires InStep(db)
    ensures InStep(SaveOne(db, key, a))
  {
    ReindexedIsIndex(db.accounts, key, a);
  }

  lemma {:induction false} SaveInOrderInStep(db: Db, batch: Table, order: seq<Pubkey>)
    requires InStep(db) && forall k :: k in order ==> k in batch
    ensures InStep(SaveInOrder(db, batch, order))
    ensures SaveInOrder(db, batch, order).accounts == db.accounts + map k | k in order :: batch[k]
    decreases |order|
  {
    hide InStep, Reindexed;
    if order != [] {
      var next := SaveOne(db, order[0], batch[order[0]]);
      SaveOneInStep(db, order[0], batch[order[0]]);
      SaveInOrderInStep(next, batch, order[1..]);
      MergeFirst(db.accounts, batch, order);
    }
  }

  lemma MergeFirst(base: Table, batch: Table, order: seq<Pubkey>)
    requires order != [] && forall k :: k in order ==> k in batch
    ensures base[order[0] := batch[order[0]]] + (map k | k in order[1..] :: batch[k])
            == base + map k | k in order :: batch[k]
  {
    assert order == [order[0]] + order[1..];
  }

  /** The batch result does not depend on the order the map is walked in. */
  lemma BatchOrderIrrelevant(db: Db, batch: Table, o1: seq<Pubkey>, o2: seq<Pubkey>)
    requires InStep(db) && WellOrdered(Batch(batch, o1)) && WellOrdered(Batch(batch, o2))
    ensures Perform(db, Batch(batch, o1)) == Perform(db, Batch(batch, o2))
    ensures Perform(db, Batch(batch, o1)).accounts == db.accounts + batch
  {
    forall o | o == o1 || o == o2
      ensures Perform(db, Batch(batch, o)).accounts == db.accounts + batch
      ensures InStep(Perform(db, Batch(batch, o)))
    {
      BatchResult(db, batch, o);
    }
  }

  lemma BatchResult(db: Db, batch: Table, order: seq<Pubkey>)
    requires InStep(db) && WellOrdered(Batch(batch, order))
    ensures Perform(db, Batch(batch, order)).accounts == db.accounts + batch
    ensures InStep(Perform(db, Batch(batch, order)))
  {
    hide InStep, SaveOne;
    assert forall k :: k in order <==> k in Elements(order);
    SaveInOrderInStep(db, batch, order);
    assert (map k | k in order :: batch[k]) == batch;
  }

  /** Over any run of single and batch saves the index and counter match the table. */
  lemma {:induction false} RunKeepsIndex(db: Db, saves: seq<Save>)
    requires InStep(db) && forall i :: 0 <= i < |saves| ==> WellOrdered(saves[i])
    ensures InStep(PerformAll(db, saves))
    decreases |saves|
  {
    hide InStep, SaveOne, SaveInOrder;
    if saves != [] {
      match saves[0] {
        case One(key, account) => SaveOneInStep(db, key, account);
        case Batch(batch, order) => BatchResult(db, batch, order);
      }
      RunKeepsIndex(Perform(db, saves[0]), saves[1..]);
    }
  }

  // ---- ordered iteration ----

  /** Everything listed so far comes before everything left. */
  ghost predicate Before(s: seq<Bytes>, rest: set<Bytes>) {
    forall x, y :: x in s && y in rest ==> Less(x, y)
  }

  lemma ListLeast(s: seq<Bytes>, k: Bytes, rest: set<Bytes>)
    requires Sorted(s) && Before(s, rest) && IsLeast(k, rest)
    ensures Sorted(s + [k]) && Before(s + [k], rest - {k})
    ensures Elements(s + [k]) == Elements(s) + {k}
  {
    forall x, y | x in s + [k] && y in rest - {k}
      ensures Less(x, y)
    {
      if x == k {
        assert AtMost(k, y);
      }
    }
  }

  /** Walks a table's keys in ascending order, as the storage engine does. */
  method Iterate(keys: set<Bytes>) returns (s: seq<Bytes>)
    ensures s == Ascending(keys)
  {
    hide Less;
    s := [];
    var rest := keys;
    while rest != {}
      invariant rest <= keys && Elements(s) == keys - rest && Sorted(s) && Before(s, rest)
      decreases |rest|
    {
      LeastExists(rest);
      var k :| k in rest && forall j :: j in rest ==> AtMost(k, j);
      ListLeast(s, k, rest);
      s := s + [k];
      rest := rest - {k};
    }
    SortedUnique(s, Ascending(keys));
  }

  /** The accounts of one owner, in ascending key order. */
  ghost function OwnedKeys(t: Table, owner: Pubkey): set<Bytes> {
    set k | k in t && t[k].owner == owner
  }

  function At(t: Table, key: Bytes): StoredAccount
    requires key in t.Keys
  {
    var k: Pubkey := key;
    t[k]
  }

  ghost predicate Lists(t: Table, keys: seq<Bytes>, out: seq<AccountInfo>) {
    && |out| == |keys|
    && forall i :: 0 <= i < |keys| ==> keys[i] in t.Keys && out[i] == IntoAccount(At(t, keys[i]), keys[i])
  }

  /** The answer a query by owner should give. */
  ghost predicate IsOwnerScan(t: Table, owner: Pubkey, out: seq<AccountInfo>) {
    Lists(t, Ascending(OwnedKeys(t, owner)), out)
  }

  lemma {:induction false} ZeroIsLeast(z: Bytes, k: Bytes)
    requires |z| == |k| && forall i :: 0 <= i < |z| ==> z[i] == 0
    ensures AtMost(z, k)
  {
    if z != [] && k[0] == 0 {
      ZeroIsLeast(z[1..], k[1..]);
      assert z == [z[0]] + z[1..] && k == [k[0]] + k[1..];
    }
  }

  lemma {:induction false} MaxIsGreatest(k: Bytes, z: Bytes)
    requires |z| == |k| && forall i :: 0 <= i < |z| ==> z[i] == 255
    ensures AtMost(k, z)
  {
    if z != [] && k[0] == 255 {
      MaxIsGreatest(k[1..], z[1..]);
      assert z == [z[0]] + z[1..] && k == [k[0]] + k[1..];
    }
  }

  /** The byte range of an owner holds every composite of that owner. */
  lemma OwnerInRange(owner: Pubkey, key: Pubkey)
    ensures AtMost(Composite(owner, ZERO_KEY), Composite(owner, key))
    ensures AtMost(Composite(owner, key), Composite(owner, MAX_KEY))
  {
    ZeroIsLeast(ZERO_KEY, key);
    MaxIsGreatest(key, MAX_KEY);
    LessPrefix(owner, ZERO_KEY, key);
    LessPrefix(owner, key, MAX_KEY);
  }

  class NodeState {
    var accounts: Table
    var ownerIdx: set<Bytes>
    var accountCount: nat

    function View(): Db
      reads this
    {
      Db(accounts, ownerIdx, accountCount)
    }

    ghost predicate Indexed()
      reads this
    {
      InStep(View())
    }

    constructor ()
      ensures accounts == map[] && Indexed()
    {
      accounts, ownerIdx, accountCount := map[], {}, 0;
    }

    /** A database written before the index existed. */
    constructor Unindexed(t: Table)
      ensures accounts == t && ownerIdx == {} && accountCount == 0
    {
      accounts, ownerIdx, accountCount := t, {}, 0;
    }

    /** `backfill_owner_index`: builds the index once, and only when it is missing. */
    method Backfill()
      modifies this
      ensures accounts == old(accounts)
      ensures old(ownerIdx) == {} && (accounts == map[] ==> old(accountCount) == 0) ==> Indexed()
      ensures old(ownerIdx) != {} ==> ownerIdx == old(ownerIdx) && accountCount == old(accountCount)
    {
      if |ownerIdx| > 0 || |accounts| == 0 {
        return;
      }
      ownerIdx := BuildIndex(accounts);
      accountCount := |accounts|;
    }

    method SaveAccount(key: Pubkey, account: StoredAccount)
      modifies this
      ensures View() == SaveOne(old(View()), key, account)
      ensures old(Indexed()) ==> Indexed()
    {
      ReindexedIsIndex(accounts, key, account);
      var prior := if key in accounts then Some(accounts[key].owner) else None;
      accounts := accounts[key := account];
      if prior.Some? && prior.value != account.owner {
        ownerIdx := ownerIdx - {Composite(prior.value, key)};
      }
      ownerIdx := ownerIdx + {Composite(account.owner, key)};
      if prior.None? {
        accountCount := accountCount + 1;
      }
    }

    /** `save_accounts_atomic`: one write for the whole batch, whatever order it is walked in. */
    method SaveAccountsAtomic(batch: Table)
      modifies this
      ensures accounts == old(accounts) + batch
      ensures old(Indexed()) ==> Indexed()
    {
      hide IndexOf;
      var table, idx, added := MergeBatch(accounts, ownerIdx, batch);
      accounts, ownerIdx, accountCount := table, idx, accountCount + added;
    }

    /** The first half of `accounts_by_owner`: the keys in the owner's index range. */
    method OwnerKeys(owner: Pubkey) returns (keys: seq<Bytes>)
      requires ownerIdx == IndexOf(accounts)
      ensures keys == Ascending(OwnedKeys(accounts, owner))
    {
      hide Less, IndexOf, Composite, Walked, Sorted, OwnedKeys;
      var lower, upper := Composite(owner, ZERO_KEY), Composite(owner, MAX_KEY);
      var range := Iterate(set e | e in ownerIdx && AtMost(lower, e) && AtMost(e, upper));
      keys := [];
      WalkStart(accounts, owner, range);
      for i := 0 to |range|
        invariant Walked(accounts, owner, keys, range[..i])
      {
        var e := range[i];
        assert e in Elements(range);
        WalkStep(accounts, owner, keys, range, i);
        if |e| == 64 && e[..32] == owner {
          keys := keys + [e[32..64]];
        }
      }
      assert range[..|range|] == range;
      WalkEnd(accounts, owner, keys, range);
    }

    /** Loads the accounts listed. */
    method Load(keys: seq<Bytes>) returns (out: seq<AccountInfo>)
      requires forall i :: 0 <= i < |keys| ==> keys[i] in accounts.Keys
      ensures Lists(accounts, keys, out)
    {
      out := [];
      for i := 0 to |keys|
        invariant Lists(accounts, keys[..i], out)
      {
        out := out + [IntoAccount(At(accounts, keys[i]), keys[i])];
      }
      assert keys[..|keys|] == keys;
    }

    /** `accounts_by_owner`: the index range gives what a full scan by owner gives. */
    method AccountsByOwner(owner: Pubkey) returns (out: seq<AccountInfo>)
      requires Indexed()
      ensures IsOwnerScan(accounts, owner, out)
    {
      var keys := OwnerKeys(owner);
      assert forall i :: 0 <= i < |keys| ==> keys[i] in Elements(keys);
      out := Load(keys);
    }

    /** The reference answer: a full scan of the table, filtered by owner. */
    method ScanByOwner(owner: Pubkey) returns (out: seq<AccountInfo>)
      ensures IsOwnerScan(accounts, owner, out)
    {
      hide Less, Filtered, Sorted, OwnedKeys, At;
      var all := Iterate(accounts.Keys);
      var keys: seq<Bytes> := [];
      FilterStart(accounts, owner);
      for i := 0 to |all|
        invariant Filtered(accounts, owner, keys, all[..i])
      {
        assert all[i] in Elements(all);
        FilterStep(accounts, owner, keys, all, i);
        if At(accounts, all[i]).owner == owner {
          keys := keys + [all[i]];
        }
      }
      assert all[..|all|] == all;
      FilterEnd(accounts, owner, keys, all);
      out := Load(keys);
    }

    /** `compute_state_root`: the Merkle root over the ascending leaves. */
    method ComputeStateRoot() returns (root: Hash)
      ensures root == StateRootOf(accounts)
    {
      var leaves := CollectLeaves(accounts);
      root := MerkleRoot(leaves);
    }
  }

  /** `state_leaves`: one pass over the table in key order. */
  method CollectLeaves(t: Table) returns (leaves: seq<Hash>)
    ensures leaves == StateLeaves(t)
  {
    hide Less, Sorted, LeafAt, StateLeaves, Elements, Ascending;
    var keys := Iterate(t.Keys);
    leaves := [];
    for i := 0 to |keys|
      invariant |leaves| == i && forall j :: 0 <= j < i ==> leaves[j] == LeafAt(t, keys, j)
    {
      var key := KeyAt(t, keys, i);
      LeafIs(t, keys, i);
      leaves := leaves + [Leaf(key, t[key])];
    }
    LeavesListed(t, keys, leaves);
  }

  lemma LeafIs(t: Table, keys: seq<Bytes>, i: nat)
    requires Elements(keys) == t.Keys && i < |keys|
    ensures LeafAt(t, keys, i) == Leaf(KeyAt(t, keys, i), t[KeyAt(t, keys, i)])
  {
  }

  lemma LeavesListed(t: Table, keys: seq<Bytes>, leaves: seq<Hash>)
    requires keys == Ascending(t.Keys) && |leaves| == |keys|
    requires forall j :: 0 <= j < |keys| ==> leaves[j] == LeafAt(t, keys, j)
    ensures leaves == StateLeaves(t)
  {
    hide Less, LeafAt;
  }

  /** The index entries of a table, collected in one scan. */
  method BuildIndex(t: Table) returns (idx: set<Bytes>)
    ensures idx == IndexOf(t)
  {
    hide Less, Sorted, Composite, IndexOf, Entries, Elements, Ascending;
    var keys := Iterate(t.Keys);
    idx := {};
    EntriesStart(t, keys);
    for i := 0 to |keys|
      invariant idx == Entries(t, keys, i)
    {
      var key := KeyAt(t, keys, i);
      EntriesNext(t, keys, i);
      idx := idx + {Composite(t[key].owner, key)};
    }
    EntriesAreIndex(t, keys);
  }

  /** The batch loop: keys are taken in no particular order. */
  method MergeBatch(base: Table, baseIdx: set<Bytes>, batch: Table)
    returns (table: Table, idx: set<Bytes>, added: nat)
    ensures table == base + batch
    ensures baseIdx == IndexOf(base) ==> idx == IndexOf(table)
    ensures |base| + added == |table|
  {
    hide IndexOf, Composite, Saving, Reindexed;
    table, idx, added := base, baseIdx, 0;
    var rest := batch.Keys;
    SavingStart(base, baseIdx, batch);
    while rest != {}
      invariant rest <= batch.Keys && Saving(base, baseIdx, batch, rest, table, idx, added)
      decreases |rest|
    {
      var key :| key in rest;
      SavingStep(base, baseIdx, batch, rest, table, idx, added, key);
      if key !in table {
        added := added + 1;
      }
      table, idx := Upsert(table, idx, key, batch[key]);
      rest := rest - {key};
    }
    SavingEnd(base, baseIdx, batch, table, idx, added);
  }

  /** One account's write inside the batch transaction. */
  method Upsert(table: Table, idx: set<Bytes>, key: Pubkey, account: StoredAccount)
    returns (table': Table, idx': set<Bytes>)
    ensures table' == table[key := account]
    ensures idx' == Reindexed(table, idx, key, account)
  {
    idx' := idx;
    if key in table && table[key].owner != account.owner {
      idx' := idx' - {Composite(table[key].owner, key)};
    }
    table' := table[key := account];
    idx' := idx' + {Composite(account.owner, key)};
  }

  /** Where a batch stands with `rest` still to write. */
  ghost predicate Saving(base: Table, baseIdx: set<Bytes>, batch: Table, rest: set<Pubkey>,
                         table: Table, idx: set<Bytes>, added: nat)
  {
    && table == base + (batch - rest)
    && (baseIdx == IndexOf(base) ==> idx == IndexOf(table))
    && |base| + added == |table|
  }

  lemma SavingStart(base: Table, baseIdx: set<Bytes>, batch: Table)
    ensures Saving(base, baseIdx, batch, batch.Keys, base, baseIdx, 0)
  {
    hide IndexOf;
    assert base == base + (batch - batch.Keys);
  }

  lemma SavingStep(base: Table, baseIdx: set<Bytes>, batch: Table, rest: set<Pubkey>,
                   table: Table, idx: set<Bytes>, added: nat, key: Pubkey)
    requires key in rest && rest <= batch.Keys
    requires Saving(base, baseIdx, batch, rest, table, idx, added)
    ensures Saving(base, baseIdx, batch, rest - {key}, table[key := batch[key]],
                   Reindexed(table, idx, key, batch[key]), if key in table then added else added + 1)
  {
    hide IndexOf, Reindexed;
    MergeStep(base, batch, rest, key);
    ReindexedIsIndex(table, key, batch[key]);
  }

  lemma MergeStep(base: Table, batch: Table, rest: set<Pubkey>, key: Pubkey)
    requires key in rest && rest <= batch.Keys
    ensures (base + (batch - rest))[key := batch[key]] == base + (batch - (rest - {key}))
  {
  }

  lemma SavingEnd(base: Table, baseIdx: set<Bytes>, batch: Table, table: Table, idx: set<Bytes>, added: nat)
    requires Saving(base, baseIdx, batch, {}, table, idx, added)
    ensures table == base + batch
    ensures baseIdx == IndexOf(base) ==> idx == IndexOf(table)
    ensures |base| + added == |table|
  {
    hide IndexOf;
    assert batch - {} == batch;
  }

  function KeyAt(t: Table, keys: seq<Bytes>, i: nat): (k: Pubkey)
    requires Elements(keys) == t.Keys && i < |keys|
    ensures k == keys[i] && k in t
  {
    assert keys[i] in Elements(keys);
    keys[i]
  }

  /** The index entries of the first `n` keys. */
  ghost function Entries(t: Table, keys: seq<Bytes>, n: nat): set<Bytes>
    requires Elements(keys) == t.Keys && n <= |keys|
  {
    if n == 0 then {} else
    var k := KeyAt(t, keys, n - 1);
    Entries(t, keys, n - 1) + {Composite(t[k].owner, k)}
  }

  lemma EntriesStart(t: Table, keys: seq<Bytes>)
    requires Elements(keys) == t.Keys
    ensures Entries(t, keys, 0) == {}
  {
  }

  lemma EntriesNext(t: Table, keys: seq<Bytes>, i: nat)
    requires Elements(keys) == t.Keys && i < |keys|
    ensures Entries(t, keys, i + 1)
            == Entries(t, keys, i) + {Composite(t[KeyAt(t, keys, i)].owner, KeyAt(t, keys, i))}
  {
  }

  lemma {:induction false} EntriesBounds(t: Table, keys: seq<Bytes>, n: nat)
    requires Elements(keys) == t.Keys && n <= |keys|
    ensures Entries(t, keys, n) <= IndexOf(t)
    ensures forall j :: 0 <= j < n ==> Composite(t[KeyAt(t, keys, j)].owner, KeyAt(t, keys, j)) in Entries(t, keys, n)
  {
    hide Composite;
    if n > 0 {
      EntriesBounds(t, keys, n - 1);
      assert KeyAt(t, keys, n - 1) in t;
    }
  }

  lemma EntriesAreIndex(t: Table, keys: seq<Bytes>)
    requires Elements(keys) == t.Keys
    ensures Entries(t, keys, |keys|) == IndexOf(t)
  {
    hide Composite, Entries;
    EntriesBounds(t, keys, |keys|);
    forall k | k in t
      ensures Composite(t[k].owner, k) in Entries(t, keys, |keys|)
    {
      assert k in Elements(keys);
      var j :| 0 <= j < |keys| && keys[j] == k;
      assert KeyAt(t, keys, j) == k;
    }
  }

  /** The owner's keys whose index entries are among `entries`. */
  ghost function OwnedAmong(t: Table, owner: Pubkey, entries: set<Bytes>): set<Bytes> {
    set k | k in t && t[k].owner == owner && Composite(owner, k) in entries
  }

  lemma OwnedStep(t: Table, owner: Pubkey, seen: set<Bytes>, e: Bytes)
    requires e in IndexOf(t)
    ensures OwnedAmong(t, owner, seen + {e})
            == OwnedAmong(t, owner, seen) + if |e| == 64 && e[..32] == owner then {e[32..64]} else {}
  {
    var k :| k in t && e == Composite(t[k].owner, k);
    assert e[32..64] == k;
    forall j | j in t && Composite(owner, j) == e
      ensures j == k && t[k].owner == owner
    {
      CompositeInjective(owner, j, t[k].owner, k);
    }
  }

  /** The keys collected so far come from entries already walked. */
  ghost predicate FromRange(owner: Pubkey, keys: seq<Bytes>, walked: seq<Bytes>) {
    forall k :: k in keys ==> |k| == 32 && owner + k in walked
  }

  /** Having walked `walked`, the keys are the owner's among them, in order. */
  ghost predicate Walked(t: Table, owner: Pubkey, keys: seq<Bytes>, walked: seq<Bytes>) {
    && Sorted(keys)
    && Elements(keys) == OwnedAmong(t, owner, Elements(walked))
    && FromRange(owner, keys, walked)
  }

  lemma WalkStart(t: Table, owner: Pubkey, range: seq<Bytes>)
    ensures Walked(t, owner, [], range[..0])
  {
    assert OwnedAmong(t, owner, Elements(range[..0])) == {};
  }

  lemma WalkStep(t: Table, owner: Pubkey, keys: seq<Bytes>, range: seq<Bytes>, i: nat)
    requires Sorted(range) && i < |range| && range[i] in IndexOf(t)
    requires Walked(t, owner, keys, range[..i])
    ensures var e := range[i];
            var next := if |e| == 64 && e[..32] == owner then keys + [e[32..64]] else keys;
            Walked(t, owner, next, range[..i + 1])
  {
    hide Less, IndexOf, Sorted;
    var e := range[i];
    assert range[..i + 1] == range[..i] + [e];
    assert Elements(range[..i + 1]) == Elements(range[..i]) + {e};
    OwnedStep(t, owner, Elements(range[..i]), e);
    if |e| == 64 && e[..32] == owner {
      AppendSorted(owner, keys, range, i);
    }
  }

  lemma WalkEnd(t: Table, owner: Pubkey, keys: seq<Bytes>, range: seq<Bytes>)
    requires Elements(range) == set e | e in IndexOf(t) && AtMost(Composite(owner, ZERO_KEY), e)
                                        && AtMost(e, Composite(owner, MAX_KEY))
    requires Walked(t, owner, keys, range)
    ensures keys == Ascending(OwnedKeys(t, owner))
  {
    hide Less;
    OwnedComplete(t, owner, Elements(range));
    SortedUnique(keys, Ascending(OwnedKeys(t, owner)));
  }

  /** Having scanned `scanned`, the keys are the owner's among them, in order. */
  ghost predicate Filtered(t: Table, owner: Pubkey, keys: seq<Bytes>, scanned: seq<Bytes>) {
    Sorted(keys) && Elements(keys) == OwnedKeys(t, owner) * Elements(scanned)
  }

  lemma FilterStart(t: Table, owner: Pubkey)
    ensures Filtered(t, owner, [], [])
  {
  }

  lemma FilterStep(t: Table, owner: Pubkey, keys: seq<Bytes>, all: seq<Bytes>, i: nat)
    requires Sorted(all) && i < |all| && all[i] in t.Keys
    requires Filtered(t, owner, keys, all[..i])
    ensures Filtered(t, owner, if At(t, all[i]).owner == owner then keys + [all[i]] else keys, all[..i + 1])
  {
    hide Less;
    assert all[..i + 1] == all[..i] + [all[i]];
    assert Elements(all[..i + 1]) == Elements(all[..i]) + {all[i]};
    assert all[i] in OwnedKeys(t, owner) <==> At(t, all[i]).owner == owner;
    if At(t, all[i]).owner == owner {
      forall k | k in keys
        ensures Less(k, all[i])
      {
        assert k in Elements(keys);
        var j :| 0 <= j < i && all[..i][j] == k;
      }
      assert Elements(keys + [all[i]]) == Elements(keys) + {all[i]};
    }
  }

  lemma FilterEnd(t: Table, owner: Pubkey, keys: seq<Bytes>, all: seq<Bytes>)
    requires Elements(all) == t.Keys && Filtered(t, owner, keys, all)
    ensures keys == Ascending(OwnedKeys(t, owner))
    ensures forall i :: 0 <= i < |keys| ==> keys[i] in t.Keys
  {
    hide Less;
    assert OwnedKeys(t, owner) * Elements(all) == OwnedKeys(t, owner);
    SortedUnique(keys, Ascending(OwnedKeys(t, owner)));
    assert forall i :: 0 <= i < |keys| ==> keys[i] in Elements(keys);
  }

  lemma OwnedComplete(t: Table, owner: Pubkey, entries: set<Bytes>)
    requires entries == set e | e in IndexOf(t) && AtMost(Composite(owner, ZERO_KEY), e)
                                && AtMost(e, Composite(owner, MAX_KEY))
    ensures OwnedAmong(t, owner, entries) == OwnedKeys(t, owner)
  {
    forall k | k in t && t[k].owner == owner
      ensures Composite(owner, k) in entries
    {
      OwnerInRange(owner, k);
      assert Composite(t[k].owner, k) in IndexOf(t);
    }
  }

  lemma AppendSorted(owner: Pubkey, keys: seq<Bytes>, range: seq<Bytes>, i: nat)
    requires Sorted(keys) && Sorted(range) && i < |range|
    requires |range[i]| == 64 && range[i][..32] == owner
    requires FromRange(owner, keys, range[..i])
    ensures FromRange(owner, keys + [range[i][32..64]], range[..i + 1])
    ensures Sorted(keys + [range[i][32..64]])
    ensures Elements(keys + [range[i][32..64]]) == Elements(keys) + {range[i][32..64]}
  {
    var last := range[i][32..64];
    assert range[i] == owner + last;
    assert range[..i + 1] == range[..i] + [range[i]];
    forall k | k in keys
      ensures Less(k, last)
    {
      var j :| 0 <= j < i && range[..i][j] == owner + k;
      LessPrefix(owner, k, last);
    }
  }
}
