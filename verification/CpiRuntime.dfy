/** The invocation machinery as it runs: thread-local counters and cloned windows. */
module CpiRuntime {
  import opened Common
  import opened Accounts
  import opened Cpi

  lemma GateNone(program: Pubkey, m: Machine)
    ensures GateAll(program, [], [], m) == GatedAll(true, [], m)
  {
  }

  /** The gate from slot `k` on: slot `k`, then the rest. */
  lemma GateHead(program: Pubkey, pres: seq<AccountInfo>, posts: seq<AccountInfo>, k: nat, m: Machine)
    requires |pres| == |posts| && k < |posts|
    ensures var first := Gate(program, pres[k], posts[k], m);
            var rest := GateAll(program, pres[k + 1..], posts[k + 1..], first.machine);
            GateAll(program, pres[k..], posts[k..], m)
            == if first.ok then GatedAll(rest.ok, [first.post] + rest.posts, rest.machine)
               else GatedAll(false, posts[k..], m)
  {
    hide Gate;
    assert pres[k..][1..] == pres[k + 1..] && posts[k..][1..] == posts[k + 1..];
  }

  class Runtime {
    var depth: nat
    var spent: nat
    var approved: map<Pubkey, AccountInfo>
    ghost var ran: nat
    ghost var peak: nat
    ghost var records: set<Record>

    ghost function View(): Machine
      reads this
    {
      Machine(depth, spent, approved, ran, peak, records)
    }

    constructor ()
      ensures View() == FRESH
    {
      depth, spent, approved := 0, 0, map[];
      ran, peak, records := 0, 0, {};
    }

    /** `charge`: refuses, and counts nothing, past the budget. */
    method Charge(units: nat) returns (c: Check)
      modifies this
      ensures c == Need(old(spent) + units <= COMPUTE_BUDGET, ComputeExhausted)
      ensures View() == if c.Pass? then old(View()).(spent := old(spent) + units) else old(View())
    {
      var next := spent + units;
      if next > COMPUTE_BUDGET {
        return Fail(ComputeExhausted);
      }
      spent := next;
      c := Pass;
    }

    /** `validate_write`: may rewrite the owner and extends the trail. */
    method ValidateWrite(program: Pubkey, pre: AccountInfo, post: AccountInfo) returns (ok: bool, kept: AccountInfo)
      modifies this
      ensures Gated(ok, kept, View()) == Gate(program, pre, post, old(View()))
    {
      kept := post;
      if SameState(pre, post) {
        return true, post;
      }
      if pre.owner == program {
        Approve(program, pre, kept);
        return true, kept;
      }
      if CreditOnly(pre, post) {
        Approve(program, pre, kept);
        return true, kept;
      }
      if IsBlank(pre) {
        if kept.owner == pre.owner {
          kept := kept.(owner := program);
        }
        Approve(program, pre, kept);
        return true, kept;
      }
      ok := post.key in approved && SameState(approved[post.key], post);
    }

    method Approve(ghost program: Pubkey, ghost pre: AccountInfo, post: AccountInfo)
      modifies this
      ensures View() == old(View()).(approved := old(approved)[post.key := post],
                                     records := old(records) + {Record(program, pre, post)})
    {
      approved := approved[post.key := post];
      records := records + {Record(program, pre, post)};
    }

    /** The gate over a window, in place; stops at the first refusal. */
    method ValidateWindow(program: Pubkey, pres: seq<AccountInfo>, window: array<AccountInfo>) returns (ok: bool)
      requires |pres| == window.Length
      modifies this, window
      ensures var g := GateAll(program, pres, old(window[..]), old(View()));
              ok == g.ok && View() == g.machine && (ok ==> window[..] == g.posts)
    {
      hide Gate, GateAll;
      ghost var posts := window[..];
      GateNone(program, View());
      ghost var total := GateAll(program, pres, posts, View());
      for k := 0 to window.Length
        invariant window[k..] == posts[k..]
        invariant var rest := GateAll(program, pres[k..], posts[k..], View());
                  && total.ok == rest.ok && total.machine == rest.machine
                  && (total.ok ==> total.posts == window[..k] + rest.posts)
      {
        GateHead(program, pres, posts, k, View());
        assert window[k] == window[k..][0] == posts[k];
        var fine, kept := ValidateWrite(program, pres[k], window[k]);
        if !fine {
          return false;
        }
        ghost var done := window[..k];
        window[k] := kept;
        assert window[k + 1..] == posts[k + 1..];
        assert window[..k + 1] == done + [kept];
      }
      GateNone(program, View());
      assert pres[window.Length..] == [] && posts[window.Length..] == [];
      assert window[..] == window[..window.Length] + [];
      ok := true;
    }

    /** A program's behaviour run over its live window. */
    method RunProgram(b: Behavior, window: array<AccountInfo>) returns (r: Result<()>)
      modifies this, window
      ensures Ran(r, window[..], View()) == Run(b, old(window[..]), old(View()))
      decreases b, 0
    {
      match b
      case Done(outcome) => r := outcome;
      case Touch(update, next) =>
        var after := Touched(update, window[..]);
        forall i | 0 <= i < window.Length {
          window[i] := after[i];
        }
        assert window[..] == after;
        r := RunProgram(next, window);
      case Call(indices, signers, program, callee, onOk, onErr) =>
        var called := InvokeSigned(window, indices, signers, program, callee);
        if called.Ok? {
          r := RunProgram(onOk, window);
        } else {
          r := RunProgram(onErr, window);
        }
    }

    /** Clones the named slots, with the requested signer flags set. */
    method CloneWindow(accounts: array<AccountInfo>, indices: seq<nat>, signers: seq<nat>)
      returns (window: array<AccountInfo>)
      requires InBounds(indices, accounts.Length)
      ensures fresh(window) && window[..] == Signed(Slots(accounts[..], indices), signers)
    {
      window := new AccountInfo[|indices|](k requires 0 <= k < |indices| && InBounds(indices, accounts.Length)
        reads accounts => accounts[indices[k]]);
      ghost var slots := Slots(accounts[..], indices);
      assert window[..] == slots;
      for j := 0 to |signers|
        invariant forall k :: 0 <= k < window.Length ==>
          window[k] == if k in signers[..j] then slots[k].(isSigner := true) else slots[k]
      {
        assert signers[..j + 1] == signers[..j] + [signers[j]];
        if signers[j] < window.Length {
          window[signers[j]] := window[signers[j]].(isSigner := true);
        }
      }
      assert signers[..|signers|] == signers;
    }

    /** Writes a window back, never persisting a synthetic signer flag. */
    method CopyBack(accounts: array<AccountInfo>, indices: seq<nat>, window: array<AccountInfo>)
      requires InBounds(indices, accounts.Length) && window.Length == |indices| && accounts != window
      modifies accounts
      ensures accounts[..] == WriteBack(old(accounts[..]), indices, window[..])
    {
      for k := 0 to |indices|
        invariant WriteBack(old(accounts[..]), indices, window[..])
                  == WriteBack(accounts[..], indices[k..], window[k..])
      {
        ghost var now := accounts[..];
        var i := indices[k];
        accounts[i] := window[k].(isSigner := accounts[i].isSigner);
        assert indices[k..][1..] == indices[k + 1..] && window[k..][1..] == window[k + 1..];
        assert accounts[..] == now[i := window[k].(isSigner := now[i].isSigner)];
      }
    }

    /** The checks before any account is touched: bounds, depth, budget. */
    method Admit(n: nat, indices: seq<nat>) returns (c: Check)
      modifies this
      ensures c == if !InBounds(indices, n) then Fail(NotEnoughAccounts)
                   else if old(depth) + 1 > MAX_CPI_DEPTH then Fail(CpiDepthExceeded)
                   else Need(old(spent) + Cost(indices) <= COMPUTE_BUDGET, ComputeExhausted)
      ensures View() == if c.Pass?
                        then old(View()).(spent := old(spent) + Cost(indices), peak := Max(old(peak), old(depth) + 1))
                        else old(View())
    {
      for k := 0 to |indices|
        invariant forall j :: 0 <= j < k ==> indices[j] < n
        invariant View() == old(View())
      {
        if indices[k] >= n {
          return Fail(NotEnoughAccounts);
        }
      }
      if depth + 1 > MAX_CPI_DEPTH {
        return Fail(CpiDepthExceeded);
      }
      c := Charge(Cost(indices));
      if c.Pass? {
        peak := Max(peak, depth + 1);
      }
    }

    /** `invoke_signed_indexed`. */
    method InvokeSigned(accounts: array<AccountInfo>, indices: seq<nat>, signers: seq<nat>, program: Pubkey,
                        callee: Behavior)
      returns (r: Result<()>)
      modifies this, accounts
      ensures Ran(r, accounts[..], View()) == Invoke(old(accounts[..]), indices, signers, program, callee, old(View()))
      decreases callee, 1
    {
      hide Run, GateAll, NoDuplicateWritable, WriteBack, Signed;
      var admitted := Admit(accounts.Length, indices);
      if admitted.Fail? {
        return Err(admitted.error);
      }
      var pres := CloneSlots(accounts, indices);
      var guard := RejectDuplicateWritable(pres);
      if guard.Fail? {
        return Err(guard.error);
      }
      var window := CloneWindow(accounts, indices, signers);
      depth, ran := depth + 1, ran + 1;
      r := RunProgram(callee, window);
      if r.Err? {
        depth := if depth == 0 then 0 else depth - 1;
        return;
      }
      var fine := ValidateWindow(program, pres, window);
      depth := if depth == 0 then 0 else depth - 1;
      if !fine {
        return Err(IllegalOwnerWrite);
      }
      CopyBack(accounts, indices, window);
      r := Ok(());
    }

    method CloneSlots(accounts: array<AccountInfo>, indices: seq<nat>) returns (s: seq<AccountInfo>)
      requires InBounds(indices, accounts.Length)
      ensures s == Slots(accounts[..], indices)
    {
      s := [];
      for k := 0 to |indices|
        invariant |s| == k && forall j :: 0 <= j < k ==> s[j] == accounts[indices[j]]
      {
        s := s + [accounts[indices[k]]];
      }
    }
  }
}
