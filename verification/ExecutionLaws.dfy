/** What programs are given, what is kept of what they return, and what a block includes. */
module ExecutionLaws {
  import opened Common
  import opened Accounts
  import opened StateRoot
  import opened Execution

  // ---- what an instruction is given ----

  /** The persisted fields of a loaded account, read off a stored one. */
  predicate Holds(a: AccountInfo, s: StoredAccount) {
    && a.lamports == s.lamports && a.data == s.data && a.owner == s.owner && a.executable == s.executable
    && (a.utxo.Some? <==> s.utxoTxid.Some? && s.utxoVout.Some?)
    && (a.utxo.Some? ==> s.utxoTxid == Some(a.utxo.value.txid) && s.utxoVout == Some(a.utxo.value.vout))
  }

  /**
   Slot by slot: key and flags are those the instruction declares; the rest is
   the overlay's entry, else the table's, else a blank account of the program's.
   */
  lemma WindowLaw(t: Table, o: Table, instr: Instruction, i: nat)
    requires i < |instr.accounts|
    ensures |Window(t + o, instr)| == |instr.accounts|
    ensures var a, meta := Window(t + o, instr)[i], instr.accounts[i];
            && a.key == meta.pubkey && a.isSigner == meta.isSigner && a.isWritable == meta.isWritable
            && (meta.pubkey in o ==> Holds(a, o[meta.pubkey]))
            && (meta.pubkey !in o && meta.pubkey in t ==> Holds(a, t[meta.pubkey]))
            && (meta.pubkey !in o && meta.pubkey !in t ==>
                  a.lamports == 0 && a.data == [] && a.owner == instr.programId && !a.executable && a.utxo.None?)
  {
  }

  /** A window as declared: the instruction's keys, signers and writable accounts, and no others. */
  predicate AsDeclared(instr: Instruction, window: seq<AccountInfo>) {
    && |window| == |instr.accounts|
    && forall i :: 0 <= i < |window| ==>
         && window[i].key == instr.accounts[i].pubkey
         && window[i].isSigner == instr.accounts[i].isSigner
         && window[i].isWritable == instr.accounts[i].isWritable
  }

  /** Programs that cannot be told apart on windows as declared. */
  ghost predicate SameAsDeclared(a: Vm, b: Vm) {
    && a.lending == b.lending && a.drained == b.drained
    && forall instr: Instruction, window, ts ::
         AsDeclared(instr, window) ==>
           a.run(instr.programId, window, instr.data, ts) == b.run(instr.programId, window, instr.data, ts)
  }

  lemma ExecuteAsDeclared(a: Vm, b: Vm, t: Table, instr: Instruction, ts: u64, settle: bool)
    requires SameAsDeclared(a, b)
    ensures Execute(a, Window(t, instr), instr, ts, settle) == Execute(b, Window(t, instr), instr, ts, settle)
  {
    var window := Window(t, instr);
    assert AsDeclared(instr, window);
    var ran := a.run(instr.programId, window, instr.data, ts);
    assert ran == b.run(instr.programId, window, instr.data, ts);
    if ran.Ok? {
      assert DrainAll(a, ran.value) == DrainAll(b, ran.value);
    }
  }

  lemma {:induction false} OverlayAsDeclared(a: Vm, b: Vm, t: Table, o: Table, instrs: seq<Instruction>, ts: u64, settle: bool)
    requires SameAsDeclared(a, b)
    ensures Overlay(a, t, o, instrs, ts, settle) == Overlay(b, t, o, instrs, ts, settle)
    decreases |instrs|
  {
    hide Execute, Window, SameAsDeclared;
    if instrs != [] {
      ExecuteAsDeclared(a, b, t + o, instrs[0], ts, settle);
      var r := Execute(a, Window(t + o, instrs[0]), instrs[0], ts, settle);
      if r.Ok? {
        OverlayAsDeclared(a, b, t, WriteAll(o, r.value), instrs[1..], ts, settle);
      }
    }
  }

  /**
   No program of any batch ever sees a signer, a writable account or a key its
   instruction did not declare: what it would do with one changes nothing.
   */
  lemma {:induction false} ProgramsSeeWhatIsDeclared(a: Vm, b: Vm, t: Table, batch: seq<Transaction>)
    requires SameAsDeclared(a, b)
    ensures Produce(a, t, batch) == Produce(b, t, batch)
    decreases |batch|
  {
    hide SameAsDeclared, Overlay;
    if batch != [] {
      OverlayAsDeclared(a, b, t, map[], batch[0].instructions, batch[0].timestamp, true);
      var r := Commit(a, t, batch[0]);
      ProgramsSeeWhatIsDeclared(a, b, if r.Ok? then r.value else t, batch[1..]);
    }
  }

  /** The same on a follower. */
  lemma {:induction false} FollowersSeeWhatIsDeclared(a: Vm, b: Vm, t: Table, txs: seq<Transaction>)
    requires SameAsDeclared(a, b)
    ensures Follow(a, t, txs) == Follow(b, t, txs)
    decreases |txs|
  {
    hide SameAsDeclared, Overlay, Replay;
    if txs != [] {
      OverlayAsDeclared(a, b, t, map[], txs[0].instructions, txs[0].timestamp, true);
      CommitIsReplay(a, t, txs[0]);
      CommitIsReplay(b, t, txs[0]);
      var r := Replay(a, t, txs[0].instructions, txs[0].timestamp);
      if r.Ok? {
        FollowersSeeWhatIsDeclared(a, b, r.value, txs[1..]);
      }
    }
  }

  // ---- what is kept ----

  /** An instruction runs once on a window without doubled writable keys; settling empties lending queues only. */
  lemma ExecuteLaw(vm: Vm, window: seq<AccountInfo>, instr: Instruction, ts: u64, settle: bool)
    ensures var out, ran := Execute(vm, window, instr, ts, settle), vm.run(instr.programId, window, instr.data, ts);
            && (out.Ok? <==>
                  && ran.Ok?
                  && forall i, j :: 0 <= i < j < |window| && window[i].isWritable && window[j].isWritable
                       ==> window[i].key != window[j].key)
            && (out.Ok? ==> |out.value| == |ran.value|)
            && (out.Ok? ==> forall i :: 0 <= i < |ran.value| ==>
                  var before, after := ran.value[i], out.value[i];
                  var cleared := vm.drained(before.data);
                  && after == before.(data := after.data)
                  && (settle && instr.programId == vm.lending && before.isWritable && cleared.Some?
                      ==> after.data == cleared.value)
                  && (!settle || instr.programId != vm.lending || !before.isWritable || cleared.None?
                      ==> after.data == before.data))
  {
  }

  /** The last account returned under a key is the one stored, and nothing else changes. */
  lemma {:induction false} LastWriteStands(t: Table, accounts: seq<AccountInfo>, i: nat)
    requires i < |accounts| && forall j :: i < j < |accounts| ==> accounts[j].key != accounts[i].key
    ensures var w := WriteAll(t, accounts);
            accounts[i].key in w && w[accounts[i].key] == Store(accounts[i])
    decreases |accounts|
  {
    if i < |accounts| - 1 {
      var init := accounts[..|accounts| - 1];
      assert init[i] == accounts[i];
      forall j | i < j < |init|
        ensures init[j].key != init[i].key
      {
        assert init[j] == accounts[j];
      }
      LastWriteStands(t, init, i);
    }
  }

  lemma {:induction false} OthersStand(t: Table, accounts: seq<AccountInfo>, key: Pubkey)
    requires forall j :: 0 <= j < |accounts| ==> accounts[j].key != key
    ensures key in WriteAll(t, accounts) <==> key in t
    ensures key in t ==> WriteAll(t, accounts)[key] == t[key]
    decreases |accounts|
  {
    if accounts != [] {
      OthersStand(t, accounts[..|accounts| - 1], key);
    }
  }

  /** Seen from its end: a transaction's last instruction runs on the table the others left. */
  lemma {:induction false} LastInstruction(vm: Vm, t: Table, instrs: seq<Instruction>, last: Instruction, ts: u64)
    ensures var before, after := Replay(vm, t, instrs, ts), Replay(vm, t, instrs + [last], ts);
            if before.Err? then after == before
            else
              var r := Execute(vm, Window(before.value, last), last, ts, true);
              after == if r.Ok? then Ok(WriteAll(before.value, r.value)) else Err(r.error)
    decreases |instrs|
  {
    hide Execute, Window, WriteAll;
    if instrs == [] {
      assert instrs + [last] == [last];
      assert [last][1..] == [];
    } else {
      assert (instrs + [last])[1..] == instrs[1..] + [last];
      var r := Execute(vm, Window(t, instrs[0]), instrs[0], ts, true);
      if r.Ok? {
        LastInstruction(vm, WriteAll(t, r.value), instrs[1..], last, ts);
      }
    }
  }

  // ---- what a block includes ----

  /**
   Seen from its end: the last transaction of a batch is included, last, exactly
   when it commits on the table the others left, and then its writes stand.
   */
  lemma {:induction false} IncludedIffCommitted(vm: Vm, t: Table, batch: seq<Transaction>, tx: Transaction)
    ensures var before, after := Produce(vm, t, batch), Produce(vm, t, batch + [tx]);
            var r := Commit(vm, before.table, tx);
            && (r.Ok? ==> after.included == before.included + [tx] && after.table == r.value)
            && (r.Err? ==> after == before)
    decreases |batch|
  {
    hide Commit;
    if batch == [] {
      assert batch + [tx] == [tx];
      assert [tx][1..] == [];
    } else {
      assert (batch + [tx])[1..] == batch[1..] + [tx];
      var r := Commit(vm, t, batch[0]);
      var next := if r.Ok? then r.value else t;
      IncludedIffCommitted(vm, next, batch[1..], tx);
      if r.Ok? {
        var rest := Produce(vm, next, batch[1..]);
        assert [batch[0]] + (rest.included + [tx]) == ([batch[0]] + rest.included) + [tx];
      }
    }
  }
}
