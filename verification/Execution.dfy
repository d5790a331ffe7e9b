/**
 Transaction execution: the primary's in-memory overlay with one atomic commit,
 and the follower's write-through re-execution.
 */
module Execution {
  import opened Common
  import opened Accounts
  import opened Merkle
  import opened StateRoot
  import opened Database

  datatype Instruction = Instruction(programId: Pubkey, accounts: seq<AccountMeta>, data: Bytes)

  datatype Transaction = Transaction(instructions: seq<Instruction>, timestamp: u64)

  datatype Block = Block(transactions: seq<Transaction>, stateRoot: Hash)

  /**
   The programs, as any deterministic function of their inputs, and the lending
   codec: `drained` gives an account's data with its settlement queue emptied,
   when the data is a collection with settlements queued.
   */
  datatype Vm = Vm(
    run: (Pubkey, seq<AccountInfo>, Bytes, u64) -> Result<seq<AccountInfo>>,
    lending: Pubkey,
    drained: Bytes -> Option<Bytes>)

  // ---- one instruction ----

  /** The account as loaded for an instruction: stored, or fresh and owned by the program. */
  function Loaded(t: Table, meta: AccountMeta, programId: Pubkey): AccountInfo {
    var a := if meta.pubkey in t then IntoAccount(t[meta.pubkey], meta.pubkey) else NewAccount(meta.pubkey, programId);
    a.(isSigner := meta.isSigner, isWritable := meta.isWritable)
  }

  function Window(t: Table, instr: Instruction): seq<AccountInfo> {
    seq(|instr.accounts|, i requires 0 <= i < |instr.accounts| => Loaded(t, instr.accounts[i], instr.programId))
  }

  function Drain(vm: Vm, a: AccountInfo): AccountInfo {
    var d := vm.drained(a.data);
    if d.Some? && a.isWritable then a.(data := d.value) else a
  }

  function DrainAll(vm: Vm, accounts: seq<AccountInfo>): seq<AccountInfo> {
    seq(|accounts|, i requires 0 <= i < |accounts| => Drain(vm, accounts[i]))
  }

  /** Runs one instruction on its window; `settle` empties the lending queue afterwards. */
  function Execute(vm: Vm, window: seq<AccountInfo>, instr: Instruction, ts: u64, settle: bool)
    : Result<seq<AccountInfo>>
  {
    if !NoDuplicateWritable(window) then Err(DuplicateWritableAccount) else
    var updated :- vm.run(instr.programId, window, instr.data, ts);
    Ok(if settle && instr.programId == vm.lending then DrainAll(vm, updated) else updated)
  }

  /** Stores a list of accounts, a later one over an earlier. */
  function WriteAll(t: Table, accounts: seq<AccountInfo>): Table
    decreases |accounts|
  {
    if accounts == [] then t
    else WriteAll(t, accounts[..|accounts| - 1])[accounts[|accounts| - 1].key := Store(accounts[|accounts| - 1])]
  }

  // ---- transactions ----

  /** Write-through: every instruction sees and updates the table itself. */
  function Replay(vm: Vm, t: Table, instrs: seq<Instruction>, ts: u64): Result<Table>
    decreases |instrs|
  {
    if instrs == [] then Ok(t) else
    var updated :- Execute(vm, Window(t, instrs[0]), instrs[0], ts, true);
    Replay(vm, WriteAll(t, updated), instrs[1..], ts)
  }

  /** The table write-through leaves: the writes of every instruction before the first failing one. */
  function Written(vm: Vm, t: Table, instrs: seq<Instruction>, ts: u64): (t': Table)
    ensures Replay(vm, t, instrs, ts).Ok? ==> Replay(vm, t, instrs, ts) == Ok(t')
    decreases |instrs|
  {
    if instrs == [] then t
    else
      var r := Execute(vm, Window(t, instrs[0]), instrs[0], ts, true);
      if r.Err? then t else Written(vm, WriteAll(t, r.value), instrs[1..], ts)
  }

  /** Overlay: writes collect beside the committed table until the end. */
  function Overlay(vm: Vm, t: Table, o: Table, instrs: seq<Instruction>, ts: u64, settle: bool): Result<Table>
    decreases |instrs|
  {
    if instrs == [] then Ok(o) else
    var updated :- Execute(vm, Window(t + o, instrs[0]), instrs[0], ts, settle);
    Overlay(vm, t, WriteAll(o, updated), instrs[1..], ts, settle)
  }

  function Commit(vm: Vm, t: Table, tx: Transaction): Result<Table> {
    var o :- Overlay(vm, t, map[], tx.instructions, tx.timestamp, true);
    Ok(t + o)
  }

  lemma {:induction false} WriteOver(t: Table, o: Table, accounts: seq<AccountInfo>)
    ensures WriteAll(t + o, accounts) == t + WriteAll(o, accounts)
    decreases |accounts|
  {
    if accounts != [] {
      var init, last := accounts[..|accounts| - 1], accounts[|accounts| - 1];
      WriteOver(t, o, init);
      assert (t + WriteAll(o, init))[last.key := Store(last)] == t + WriteAll(o, init)[last.key := Store(last)];
    }
  }

  /** The overlay and the write-through run agree, step for step and error for error. */
  lemma {:induction false} OverlayIsReplay(vm: Vm, t: Table, o: Table, instrs: seq<Instruction>, ts: u64)
    ensures Replay(vm, t + o, instrs, ts)
            == match Overlay(vm, t, o, instrs, ts, true)
               case Ok(o') => Ok(t + o')
               case Err(e) => Err(e)
    decreases |instrs|
  {
    if instrs != [] {
      var r := Execute(vm, Window(t + o, instrs[0]), instrs[0], ts, true);
      if r.Ok? {
        WriteOver(t, o, r.value);
        OverlayIsReplay(vm, t, WriteAll(o, r.value), instrs[1..], ts);
      }
    }
  }

  /** Committing a transaction atomically is replaying it. */
  lemma CommitIsReplay(vm: Vm, t: Table, tx: Transaction)
    ensures Commit(vm, t, tx) == Replay(vm, t, tx.instructions, tx.timestamp)
  {
    assert t + map[] == t;
    OverlayIsReplay(vm, t, map[], tx.instructions, tx.timestamp);
  }

  /** A preflight predicts the commit whenever no lending instruction is involved. */
  lemma {:induction false} PreflightPredicts(vm: Vm, t: Table, o: Table, instrs: seq<Instruction>, ts: u64)
    requires forall i :: 0 <= i < |instrs| ==> instrs[i].programId != vm.lending
    ensures Overlay(vm, t, o, instrs, ts, false) == Overlay(vm, t, o, instrs, ts, true)
    decreases |instrs|
  {
    if instrs != [] {
      var r := Execute(vm, Window(t + o, instrs[0]), instrs[0], ts, true);
      assert instrs[0].programId != vm.lending;
      assert r == Execute(vm, Window(t + o, instrs[0]), instrs[0], ts, false);
      if r.Ok? {
        PreflightPredicts(vm, t, WriteAll(o, r.value), instrs[1..], ts);
      }
    }
  }

  // ---- blocks ----

  datatype Produced = Produced(included: seq<Transaction>, table: Table)

  /** The producer's batch loop: a failed transaction is skipped and changes nothing. */
  function Produce(vm: Vm, t: Table, batch: seq<Transaction>): Produced
    decreases |batch|
  {
    if batch == [] then Produced([], t) else
    var r := Commit(vm, t, batch[0]);
    if r.Err? then Produce(vm, t, batch[1..])
    else
      var rest := Produce(vm, r.value, batch[1..]);
      Produced([batch[0]] + rest.included, rest.table)
  }

  /** The follower's loop over a block. */
  function Follow(vm: Vm, t: Table, txs: seq<Transaction>): Result<Table>
    decreases |txs|
  {
    if txs == [] then Ok(t) else
    var next :- Replay(vm, t, txs[0].instructions, txs[0].timestamp);
    Follow(vm, next, txs[1..])
  }

  /** The table the follower's loop leaves, the block applied in full or not. */
  function Followed(vm: Vm, t: Table, txs: seq<Transaction>): (t': Table)
    ensures Follow(vm, t, txs).Ok? ==> Follow(vm, t, txs) == Ok(t')
    decreases |txs|
  {
    if txs == [] then t
    else
      var next := Written(vm, t, txs[0].instructions, txs[0].timestamp);
      if Replay(vm, t, txs[0].instructions, txs[0].timestamp).Err? then next else Followed(vm, next, txs[1..])
  }

  /**
   Follower refinement: re-executing the included transactions from an equal
   table never errors and ends in the primary's table.
   */
  lemma {:induction false} FollowerRefinesPrimary(vm: Vm, t: Table, batch: seq<Transaction>)
    ensures Follow(vm, t, Produce(vm, t, batch).included) == Ok(Produce(vm, t, batch).table)
    decreases |batch|
  {
    if batch != [] {
      CommitIsReplay(vm, t, batch[0]);
      var r := Commit(vm, t, batch[0]);
      if r.Ok? {
        FollowerRefinesPrimary(vm, r.value, batch[1..]);
        var rest := Produce(vm, r.value, batch[1..]);
        assert ([batch[0]] + rest.included)[1..] == rest.included;
      } else {
        FollowerRefinesPrimary(vm, t, batch[1..]);
      }
    }
  }

  ghost function MakeBlock(vm: Vm, t: Table, batch: seq<Transaction>): Block {
    var p := Produce(vm, t, batch);
    Block(p.included, StateRootOf(p.table))
  }

  ghost function Chain(vm: Vm, t: Table, batches: seq<seq<Transaction>>): seq<Block>
    decreases |batches|
  {
    if batches == [] then []
    else [MakeBlock(vm, t, batches[0])] + Chain(vm, Produce(vm, t, batches[0]).table, batches[1..])
  }

  function Tip(vm: Vm, t: Table, batches: seq<seq<Transaction>>): Table
    decreases |batches|
  {
    if batches == [] then t else Tip(vm, Produce(vm, t, batches[0]).table, batches[1..])
  }

  /** Replays blocks in order, requiring each block's root to match. */
  ghost function Sync(vm: Vm, t: Table, blocks: seq<Block>): Result<Table>
    decreases |blocks|
  {
    if blocks == [] then Ok(t) else
    var next :- Follow(vm, t, blocks[0].transactions);
    if StateRootOf(next) != blocks[0].stateRoot then Err(InvalidAccountData)
    else Sync(vm, next, blocks[1..])
  }

  /** A follower in step at the start is in step after any number of blocks, roots included. */
  lemma {:induction false} ChainReplicates(vm: Vm, t: Table, batches: seq<seq<Transaction>>)
    ensures Sync(vm, t, Chain(vm, t, batches)) == Ok(Tip(vm, t, batches))
    decreases |batches|
  {
    hide Produce, Follow, StateRootOf;
    if batches != [] {
      var next := Produce(vm, t, batches[0]).table;
      FollowerRefinesPrimary(vm, t, batches[0]);
      ChainReplicates(vm, next, batches[1..]);
      assert Chain(vm, t, batches)[1..] == Chain(vm, next, batches[1..]);
    }
  }

  /** `apply_block`'s comparison: a zero root is not compared. */
  ghost predicate Diverged(block: Block, replica: Table) {
    block.stateRoot != Empty && StateRootOf(replica) != block.stateRoot
  }

  lemma EmptyRootIff(t: Table)
    ensures StateRootOf(t) == Empty <==> t == map[]
  {
    if StateRootOf(t) == Empty {
      StateRootBinds(t, map[]);
    }
  }

  /**
   The comparison flags a replica that re-executed a produced block exactly when
   its table differs from the primary's and the primary's is not empty.
   */
  lemma DivergenceDetectedIff(vm: Vm, t: Table, batch: seq<Transaction>, replica: Table)
    ensures var primary := Produce(vm, t, batch).table;
            Diverged(MakeBlock(vm, t, batch), replica) <==> replica != primary && primary != map[]
  {
    hide StateRootOf, Produce;
    var primary := Produce(vm, t, batch).table;
    EmptyRootIff(primary);
    if StateRootOf(replica) == StateRootOf(primary) {
      StateRootBinds(replica, primary);
    }
  }

  // ---- the code's loops ----

  /** The accounts' settlement queues emptied in place; the broadcast itself is not modelled. */
  method DrainLending(vm: Vm, accounts: array<AccountInfo>)
    modifies accounts
    ensures accounts[..] == DrainAll(vm, old(accounts[..]))
  {
    for i := 0 to accounts.Length
      invariant forall j :: 0 <= j < i ==> accounts[j] == Drain(vm, old(accounts[j]))
      invariant forall j :: i <= j < accounts.Length ==> accounts[j] == old(accounts[j])
    {
      var cleared := vm.drained(accounts[i].data);
      if cleared.Some? {
        if accounts[i].isWritable {
          accounts[i] := accounts[i].(data := cleared.value);
        }
      }
    }
  }

  /** Materialises an instruction's accounts: the overlay first, then the table, else fresh. */
  method Materialize(o: Table, t: Table, instr: Instruction) returns (accounts: seq<AccountInfo>)
    ensures accounts == Window(t + o, instr)
  {
    accounts := [];
    for i := 0 to |instr.accounts|
      invariant |accounts| == i
      invariant forall j :: 0 <= j < i ==> accounts[j] == Loaded(t + o, instr.accounts[j], instr.programId)
    {
      var meta := instr.accounts[i];
      var account := NewAccount(meta.pubkey, instr.programId);
      if meta.pubkey in o {
        account := IntoAccount(o[meta.pubkey], meta.pubkey);
      } else if meta.pubkey in t {
        account := IntoAccount(t[meta.pubkey], meta.pubkey);
      }
      account := account.(isSigner := meta.isSigner);
      account := account.(isWritable := meta.isWritable);
      accounts := accounts + [account];
    }
  }

  /** Executes one instruction, with the guard and the queue clearing both nodes share. */
  method RunInstruction(vm: Vm, accounts: seq<AccountInfo>, instr: Instruction, ts: u64, settle: bool)
    returns (r: Result<seq<AccountInfo>>)
    ensures r == Execute(vm, accounts, instr, ts, settle)
  {
    var guard := RejectDuplicateWritable(accounts);
    if guard.Fail? {
      return Err(guard.error);
    }
    var updated :- vm.run(instr.programId, accounts, instr.data, ts);
    if settle && instr.programId == vm.lending {
      var live := new AccountInfo[|updated|](i requires 0 <= i < |updated| => updated[i]);
      assert live[..] == updated;
      DrainLending(vm, live);
      return Ok(live[..]);
    }
    r := Ok(updated);
  }

  class Node {
    const vm: Vm
    const state: NodeState

    constructor (vm: Vm, state: NodeState)
      ensures this.vm == vm && this.state == state
    {
      this.vm, this.state := vm, state;
    }

    /** `Executor::apply`: preflight persists nothing, commit persists all or nothing. */
    method Apply(tx: Transaction, commit: bool) returns (r: Result<()>)
      modifies state
      ensures r.Ok? == Overlay(vm, old(state.accounts), map[], tx.instructions, tx.timestamp, commit).Ok?
      ensures r.Err? || !commit ==> state.View() == old(state.View())
      ensures r.Ok? && commit ==> Commit(vm, old(state.accounts), tx) == Ok(state.accounts)
      ensures old(state.Indexed()) ==> state.Indexed()
    {
      hide Execute, Window, IndexOf;
      var overlay: Table := map[];
      var instrs := tx.instructions;
      for i := 0 to |instrs|
        invariant state.View() == old(state.View())
        invariant Overlay(vm, state.accounts, map[], instrs, tx.timestamp, commit)
                  == Overlay(vm, state.accounts, overlay, instrs[i..], tx.timestamp, commit)
      {
        var accounts := Materialize(overlay, state.accounts, instrs[i]);
        var updated :- RunInstruction(vm, accounts, instrs[i], tx.timestamp, commit);
        ghost var before := overlay;
        for j := 0 to |updated|
          invariant overlay == WriteAll(before, updated[..j])
        {
          overlay := overlay[updated[j].key := Store(updated[j])];
          assert updated[..j + 1][..j] == updated[..j];
        }
        assert updated[..|updated|] == updated;
        assert instrs[i..][1..] == instrs[i + 1..];
      }
      if commit {
        state.SaveAccountsAtomic(overlay);
      }
      r := Ok(());
    }

    /** `apply_transaction` on a follower: each instruction's accounts are saved at once. */
    method ApplyTransaction(tx: Transaction) returns (r: Result<()>)
      modifies state
      ensures r.Ok? == Replay(vm, old(state.accounts), tx.instructions, tx.timestamp).Ok?
      ensures r.Err? ==> Replay(vm, old(state.accounts), tx.instructions, tx.timestamp) == Err(r.error)
      ensures state.accounts == Written(vm, old(state.accounts), tx.instructions, tx.timestamp)
      ensures old(state.Indexed()) ==> state.Indexed()
    {
      hide Execute, Window, IndexOf, Reindexed;
      var instrs := tx.instructions;
      for i := 0 to |instrs|
        invariant old(state.Indexed()) ==> state.Indexed()
        invariant Replay(vm, old(state.accounts), instrs, tx.timestamp)
                  == Replay(vm, state.accounts, instrs[i..], tx.timestamp)
        invariant Written(vm, old(state.accounts), instrs, tx.timestamp)
                  == Written(vm, state.accounts, instrs[i..], tx.timestamp)
      {
        ghost var t := state.accounts;
        var accounts := Materialize(map[], state.accounts, instrs[i]);
        assert t + map[] == t;
        var updated :- RunInstruction(vm, accounts, instrs[i], tx.timestamp, true);
        for j := 0 to |updated|
          invariant old(state.Indexed()) ==> state.Indexed()
          invariant state.accounts == WriteAll(t, updated[..j])
        {
          state.SaveAccount(updated[j].key, Store(updated[j]));
          assert updated[..j + 1][..j] == updated[..j];
        }
        assert updated[..|updated|] == updated;
        assert instrs[i..][1..] == instrs[i + 1..];
      }
      r := Ok(());
    }

    /** The block producer's loop over a batch. */
    method ProduceBlock(batch: seq<Transaction>) returns (block: Block)
      modifies state
      ensures block == MakeBlock(vm, old(state.accounts), batch)
      ensures state.accounts == Produce(vm, old(state.accounts), batch).table
      ensures old(state.Indexed()) ==> state.Indexed()
    {
      hide Overlay, IndexOf, StateRootOf;
      ghost var t0 := state.accounts;
      var included: seq<Transaction> := [];
      for i := 0 to |batch|
        invariant old(state.Indexed()) ==> state.Indexed()
        invariant var rest := Produce(vm, state.accounts, batch[i..]);
                  Produce(vm, t0, batch) == Produced(included + rest.included, rest.table)
      {
        ghost var t := state.accounts;
        assert batch[i..][1..] == batch[i + 1..];
        var r := Apply(batch[i], true);
        if r.Ok? {
          ghost var rest := Produce(vm, state.accounts, batch[i + 1..]);
          assert included + ([batch[i]] + rest.included) == (included + [batch[i]]) + rest.included;
          included := included + [batch[i]];
        }
      }
      assert included + [] == included;
      var root := state.ComputeStateRoot();
      block := Block(included, root);
    }

    /** `apply_block` on a follower: re-execute everything, then compare roots. */
    method ApplyBlock(block: Block) returns (r: Result<()>, diverged: bool)
      modifies state
      ensures r.Ok? == Follow(vm, old(state.accounts), block.transactions).Ok?
      ensures r.Err? ==> Follow(vm, old(state.accounts), block.transactions) == Err(r.error)
      ensures state.accounts == Followed(vm, old(state.accounts), block.transactions)
      ensures diverged == (r.Ok? && Diverged(block, state.accounts))
      ensures old(state.Indexed()) ==> state.Indexed()
    {
      hide Replay, Written, IndexOf, StateRootOf;
      diverged := false;
      var txs := block.transactions;
      for i := 0 to |txs|
        invariant old(state.Indexed()) ==> state.Indexed()
        invariant Follow(vm, old(state.accounts), txs) == Follow(vm, state.accounts, txs[i..])
        invariant Followed(vm, old(state.accounts), txs) == Followed(vm, state.accounts, txs[i..])
      {
        assert txs[i..][1..] == txs[i + 1..];
        var step := ApplyTransaction(txs[i]);
        if step.Err? {
          return step, false;
        }
      }
      if block.stateRoot != Empty {
        var local := state.ComputeStateRoot();
        diverged := local != block.stateRoot;
      }
      r := Ok(());
    }
  }
}
