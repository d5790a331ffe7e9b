/** Accounts as programs see them and as the database stores them. */
module Accounts {
  import opened Common

  type Bytes = seq<Byte>

  datatype Utxo = Utxo(txid: Pubkey, vout: nat)

  datatype AccountInfo = AccountInfo(
    key: Pubkey,
    lamports: u64,
    data: Bytes,
    owner: Pubkey,
    executable: bool,
    isSigner: bool,
    isWritable: bool,
    utxo: Option<Utxo>)

  datatype StoredAccount = StoredAccount(
    lamports: u64,
    data: Bytes,
    owner: Pubkey,
    executable: bool,
    utxoTxid: Option<Pubkey>,
    utxoVout: Option<nat>)

  datatype AccountMeta = AccountMeta(pubkey: Pubkey, isSigner: bool, isWritable: bool)

  /** What is persisted of an account; the transient flags are not. */
  function Store(a: AccountInfo): StoredAccount {
    StoredAccount(a.lamports, a.data, a.owner, a.executable,
                  if a.utxo.Some? then Some(a.utxo.value.txid) else None,
                  if a.utxo.Some? then Some(a.utxo.value.vout) else None)
  }

  function IntoAccount(s: StoredAccount, key: Pubkey): AccountInfo {
    AccountInfo(key, s.lamports, s.data, s.owner, s.executable, false, true,
                if s.utxoTxid.Some? && s.utxoVout.Some?
                then Some(Utxo(s.utxoTxid.value, s.utxoVout.value)) else None)
  }

  function NewAccount(key: Pubkey, owner: Pubkey): AccountInfo {
    AccountInfo(key, 0, [], owner, false, false, true, None)
  }

  /** Loading then storing gives back a record whose anchor halves agree. */
  lemma StoreUndoesInto(s: StoredAccount, key: Pubkey)
    ensures Store(IntoAccount(s, key)) == s <==> (s.utxoTxid.Some? <==> s.utxoVout.Some?)
  {
  }

  /** Storing then loading resets the transient flags and keeps the rest. */
  lemma IntoUndoesStore(a: AccountInfo)
    ensures IntoAccount(Store(a), a.key) == a.(isSigner := false, isWritable := true)
  {
  }

  predicate NoDuplicateWritable(accounts: seq<AccountInfo>) {
    forall i, j :: 0 <= i < j < |accounts| && accounts[i].isWritable && accounts[j].isWritable
      ==> accounts[i].key != accounts[j].key
  }

  /** `reject_duplicate_writable`: refuses exactly a key listed writable twice. */
  method RejectDuplicateWritable(accounts: seq<AccountInfo>) returns (c: Check)
    ensures c == Need(NoDuplicateWritable(accounts), DuplicateWritableAccount)
  {
    for i := 0 to |accounts|
      invariant forall p, q :: 0 <= p < i && p < q < |accounts| && accounts[p].isWritable && accounts[q].isWritable
                               ==> accounts[p].key != accounts[q].key
    {
      if accounts[i].isWritable {
        for j := i + 1 to |accounts|
          invariant forall q :: i < q < j && accounts[q].isWritable ==> accounts[i].key != accounts[q].key
        {
          if accounts[j].isWritable && accounts[j].key == accounts[i].key {
            return Fail(DuplicateWritableAccount);
          }
        }
      }
    }
    c := Pass;
  }
}
