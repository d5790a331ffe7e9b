/** Who may write what, and what a call sees, charges and leaves behind. */
module CpiLaws {
  import opened Common
  import opened Accounts
  import opened Cpi

  /** Nothing but a gain of lamports. */
  predicate OnlyCredited(pre: AccountInfo, post: AccountInfo) {
    && pre.lamports <= post.lamports
    && pre.data == post.data && pre.owner == post.owner
    && pre.executable == post.executable && pre.utxo == post.utxo
  }

  /** Something to protect: lamports, data, code or an anchor. */
  predicate InUse(a: AccountInfo) {
    a.lamports > 0 || |a.data| > 0 || a.executable || a.utxo.Some?
  }

  // ---- programs that do not own an account ----

  lemma GateOfOthers(program: Pubkey, pre: AccountInfo, post: AccountInfo, m: Machine)
    requires pre.owner != program && InUse(pre)
    ensures var g := Gate(program, pre, post, m);
            && (post.key !in m.approved ==> (g.ok <==> OnlyCredited(pre, post)))
            && (g.ok && post.key !in m.approved ==> g.post == post)
  {
  }

  lemma GateTrail(program: Pubkey, pre: AccountInfo, post: AccountInfo, m: Machine)
    ensures var g := Gate(program, pre, post, m);
            g.post.key == post.key && forall k :: k in g.machine.approved ==> k in m.approved || k == post.key
  {
  }

  lemma {:induction false} WindowOfOthers(program: Pubkey, pres: seq<AccountInfo>, posts: seq<AccountInfo>, m: Machine, i: nat)
    requires |pres| == |posts| && i < |pres| && GateAll(program, pres, posts, m).ok
    requires posts[i].key !in m.approved && forall j :: 0 <= j < i ==> posts[j].key != posts[i].key
    requires pres[i].owner != program && InUse(pres[i])
    ensures OnlyCredited(pres[i], GateAll(program, pres, posts, m).posts[i])
    decreases |posts|
  {
    hide Gate;
    var first := Gate(program, pres[0], posts[0], m);
    GateTrail(program, pres[0], posts[0], m);
    if i == 0 {
      GateOfOthers(program, pres[0], posts[0], m);
    } else {
      assert posts[1..][i - 1] == posts[i] && pres[1..][i - 1] == pres[i];
      WindowOfOthers(program, pres[1..], posts[1..], first.machine, i - 1);
    }
  }

  /**
   A program that does not own an account in use can only add to its lamports,
   unless some invocation below it left a write on record for that account.
   */
  lemma OthersOnlyCredit(program: Pubkey, b: Behavior, accounts: seq<AccountInfo>, i: nat)
    requires Dispatch(program, b, accounts).result.Ok? && i < |accounts|
    requires accounts[i].owner != program && InUse(accounts[i])
    requires var r := Run(b, accounts, FRESH);
             && r.accounts[i].key !in r.machine.approved
             && forall j :: 0 <= j < i ==> r.accounts[j].key != r.accounts[i].key
    ensures |Dispatch(program, b, accounts).accounts| == |accounts|
    ensures OnlyCredited(accounts[i], Dispatch(program, b, accounts).accounts[i])
  {
    var r := Run(b, accounts, FRESH);
    WindowOfOthers(program, accounts, r.accounts, r.machine, i);
  }

  predicate CallFree(b: Behavior) {
    match b
    case Done(_) => true
    case Touch(_, next) => CallFree(next)
    case Call(_, _, _, _, _, _) => false
  }

  lemma {:induction false} CallFreeLeavesNoRecord(b: Behavior, window: seq<AccountInfo>, m: Machine)
    requires CallFree(b)
    ensures Run(b, window, m).machine == m
  {
    match b
    case Done(_) =>
    case Touch(update, next) => CallFreeLeavesNoRecord(next, Touched(update, window), m);
  }

  /** In particular a program that calls nobody, on accounts with different keys. */
  lemma LoneProgramOnlyCredits(program: Pubkey, b: Behavior, accounts: seq<AccountInfo>, i: nat)
    requires CallFree(b) && Dispatch(program, b, accounts).result.Ok? && i < |accounts|
    requires accounts[i].owner != program && InUse(accounts[i])
    requires forall j :: 0 <= j < i ==> Run(b, accounts, FRESH).accounts[j].key != Run(b, accounts, FRESH).accounts[i].key
    ensures |Dispatch(program, b, accounts).accounts| == |accounts|
    ensures OnlyCredited(accounts[i], Dispatch(program, b, accounts).accounts[i])
  {
    CallFreeLeavesNoRecord(b, accounts, FRESH);
    OthersOnlyCredit(program, b, accounts, i);
  }

  /** A state left on record for an account is accepted from whoever presents it, and leaves the record alone. */
  lemma RecordedIsAccepted(program: Pubkey, pre: AccountInfo, post: AccountInfo, m: Machine)
    requires post.key in m.approved && SameState(m.approved[post.key], post)
    ensures Gate(program, pre, post, m).ok
    ensures pre.owner != program && InUse(pre) && !OnlyCredited(pre, post)
            ==> Gate(program, pre, post, m) == Gated(true, post, m)
  {
  }

  /** What an entitled program recorded, field by field. */
  lemma RecordsSpelledOut(m: Machine, r: Record)
    requires TrailSound(m) && r in m.records
    ensures r.pre.owner == r.program || OnlyCredited(r.pre, r.post) || !InUse(r.pre)
  {
  }

  /** A blank account goes to the program that first writes it, unless the program assigned it. */
  lemma BlankIsClaimed(program: Pubkey, pre: AccountInfo, post: AccountInfo, m: Machine)
    requires !InUse(pre) && pre.owner != program && !OnlyCredited(pre, post)
    ensures var g := Gate(program, pre, post, m);
            g.ok && g.post == post.(owner := if post.owner == pre.owner then program else post.owner)
  {
  }

  // ---- the owner's writes land ----

  predicate OwnedBy(program: Pubkey, accounts: seq<AccountInfo>) {
    forall i :: 0 <= i < |accounts| ==> accounts[i].owner == program
  }

  lemma {:induction false} OwnersWindowPasses(program: Pubkey, pres: seq<AccountInfo>, posts: seq<AccountInfo>, m: Machine)
    requires |pres| == |posts| && OwnedBy(program, pres)
    ensures GateAll(program, pres, posts, m).ok && GateAll(program, pres, posts, m).posts == posts
    decreases |posts|
  {
    if posts != [] {
      assert pres[0].owner == program;
      var first := Gate(program, pres[0], posts[0], m);
      OwnersWindowPasses(program, pres[1..], posts[1..], first.machine);
      assert posts == [posts[0]] + posts[1..];
    }
  }

  predicate DistinctIndices(indices: seq<nat>) {
    forall i, j :: 0 <= i < j < |indices| ==> indices[i] != indices[j]
  }

  lemma {:induction false} WriteBackLands(accounts: seq<AccountInfo>, indices: seq<nat>, window: seq<AccountInfo>, k: nat)
    requires InBounds(indices, |accounts|) && |window| == |indices| && DistinctIndices(indices) && k < |indices|
    ensures indices[k] < |accounts|
    ensures WriteBack(accounts, indices, window)[indices[k]] == window[k].(isSigner := accounts[indices[k]].isSigner)
    decreases |indices|
  {
    var i := indices[0];
    var next := accounts[i := window[0].(isSigner := accounts[i].isSigner)];
    if k == 0 {
      WriteBackSigners(next, indices[1..], window[1..], i);
    } else {
      assert indices[1..][k - 1] == indices[k] && window[1..][k - 1] == window[k];
      WriteBackLands(next, indices[1..], window[1..], k - 1);
    }
  }

  /** The callee's window: the named accounts, with the granted signers added to those already there. */
  lemma CalleeSees(accounts: seq<AccountInfo>, indices: seq<nat>, signers: seq<nat>, k: nat)
    requires InBounds(indices, |accounts|) && k < |indices|
    ensures indices[k] < |accounts|
    ensures var a := accounts[indices[k]];
            Signed(Slots(accounts, indices), signers)[k] == a.(isSigner := a.isSigner || k in signers)
  {
  }

  /** A call is admitted on its bounds, at most four deep, and within a budget of 1,000 a call and 100 an account. */
  predicate Admissible(accounts: seq<AccountInfo>, indices: seq<nat>, m: Machine) {
    && InBounds(indices, |accounts|)
    && m.depth <= 3
    && m.spent + 1_000 + 100 * |indices| <= 1_000_000
    && NoDuplicateWritable(Slots(accounts, indices))
  }

  lemma IdleCallRuns(accounts: seq<AccountInfo>, indices: seq<nat>, program: Pubkey, m: Machine)
    requires DistinctIndices(indices) && Admissible(accounts, indices, m)
    ensures Invoke(accounts, indices, [], program, Done(Ok(())), m)
            == Ran(Ok(()), accounts, m.(spent := m.spent + 1_000 + 100 * |indices|, peak := Max(m.peak, m.depth + 1),
                                        ran := m.ran + 1))
  {
    hide NoDuplicateWritable, GateAll, WriteBack;
    var window := Slots(accounts, indices);
    assert Signed(window, []) == window;
    var inner := m.(spent := m.spent + Cost(indices), peak := Max(m.peak, m.depth + 1),
                    depth := m.depth + 1, ran := m.ran + 1);
    SameWindowPasses(program, window, inner);
    SameWindowWritesNothing(accounts, indices);
    hide Signed, Slots;
  }

  lemma RefusedOutright(accounts: seq<AccountInfo>, indices: seq<nat>, signers: seq<nat>, program: Pubkey,
                        callee: Behavior, m: Machine)
    requires !Admissible(accounts, indices, m)
    ensures var r := Invoke(accounts, indices, signers, program, callee, m);
            r.result.Err? && r.accounts == accounts && r.machine.ran == m.ran && r.machine.depth == m.depth
  {
    hide NoDuplicateWritable, GateAll, WriteBack, Run, Signed, Slots;
  }

  /** A callee that does nothing succeeds exactly when admitted, costs its charge and leaves everything as it was. */
  lemma IdleCall(accounts: seq<AccountInfo>, indices: seq<nat>, program: Pubkey, m: Machine)
    requires DistinctIndices(indices)
    ensures var r := Invoke(accounts, indices, [], program, Done(Ok(())), m);
            && (r.result.Ok? <==> Admissible(accounts, indices, m))
            && (r.result.Ok? ==>
                  && r.machine.spent == m.spent + 1_000 + 100 * |indices|
                  && r.machine.depth == m.depth && r.machine.ran == m.ran + 1
                  && r.machine.approved == m.approved && r.accounts == accounts)
  {
    hide Invoke, Admissible;
    if Admissible(accounts, indices, m) {
      IdleCallRuns(accounts, indices, program, m);
    } else {
      RefusedOutright(accounts, indices, [], program, Done(Ok(())), m);
    }
  }

  lemma {:induction false} SameWindowPasses(program: Pubkey, window: seq<AccountInfo>, m: Machine)
    ensures GateAll(program, window, window, m) == GatedAll(true, window, m)
    decreases |window|
  {
    if window != [] {
      SameWindowPasses(program, window[1..], m);
      assert window == [window[0]] + window[1..];
    }
  }

  lemma SameWindowWritesNothing(accounts: seq<AccountInfo>, indices: seq<nat>)
    requires InBounds(indices, |accounts|) && DistinctIndices(indices)
    ensures WriteBack(accounts, indices, Slots(accounts, indices)) == accounts
  {
    var window := Slots(accounts, indices);
    var back := WriteBack(accounts, indices, window);
    forall i | 0 <= i < |accounts|
      ensures back[i] == accounts[i]
    {
      if i in indices {
        var k :| 0 <= k < |indices| && indices[k] == i;
        WriteBackLands(accounts, indices, window, k);
      } else {
        WriteBackSigners(accounts, indices, window, i);
      }
    }
  }

  /** An admitted callee that owns what it is given writes it: its window lands in the caller's slots. */
  lemma OwnersCallLands(accounts: seq<AccountInfo>, indices: seq<nat>, signers: seq<nat>, program: Pubkey,
                        update: seq<AccountInfo> -> seq<AccountInfo>, m: Machine, k: nat)
    requires Admissible(accounts, indices, m) && DistinctIndices(indices) && k < |indices|
    requires OwnedBy(program, Slots(accounts, indices))
    requires |update(Signed(Slots(accounts, indices), signers))| == |indices|
    ensures indices[k] < |accounts|
    ensures var r := Invoke(accounts, indices, signers, program, Touch(update, Done(Ok(()))), m);
            && r.result.Ok?
            && r.accounts[indices[k]]
               == update(Signed(Slots(accounts, indices), signers))[k].(isSigner := accounts[indices[k]].isSigner)
  {
    hide NoDuplicateWritable, Signed, GateAll;
    var window := Slots(accounts, indices);
    var seen := Signed(window, signers);
    var inner := m.(spent := m.spent + Cost(indices), peak := Max(m.peak, m.depth + 1), depth := m.depth + 1, ran := m.ran + 1);
    assert Run(Touch(update, Done(Ok(()))), seen, inner) == Ran(Ok(()), update(seen), inner);
    OwnersWindowPasses(program, window, update(seen), inner);
    WriteBackLands(accounts, indices, update(seen), k);
  }
}
