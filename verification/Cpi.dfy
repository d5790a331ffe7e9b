/**
 Cross-program invocation: cloned windows, the depth guard, the compute meter
 and the owner gate, over every finite tree of nested calls.
 */
module Cpi {
  import opened Common
  import opened Accounts

  const MAX_CPI_DEPTH: nat := 4
  const COMPUTE_BUDGET: nat := 1_000_000
  const CPI_BASE_COST: nat := 1_000
  const PER_ACCOUNT_COST: nat := 100

  /**
   What a program does with its window: change it, call another program and go
   on according to the outcome, or return. Every terminating execution follows
   some such finite tree.
   */
  datatype Behavior =
    | Done(outcome: Result<()>)
    | Touch(update: seq<AccountInfo> -> seq<AccountInfo>, next: Behavior)
    | Call(indices: seq<nat>, signers: seq<nat>, program: Pubkey, callee: Behavior, onOk: Behavior, onErr: Behavior)

  /** A write the gate approved on its own merits. */
  datatype Record = Record(program: Pubkey, pre: AccountInfo, post: AccountInfo)

  /**
   The thread's runtime state. `ran`, `peak` and `records` are history: callees
   run, deepest nesting, and every write recorded by the gate.
   */
  datatype Machine = Machine(
    depth: nat, spent: nat, approved: map<Pubkey, AccountInfo>,
    ran: nat, peak: nat, records: set<Record>)

  datatype Ran = Ran(result: Result<()>, accounts: seq<AccountInfo>, machine: Machine)

  // ---- the owner gate ----

  predicate SameState(a: AccountInfo, b: AccountInfo) {
    a.lamports == b.lamports && a.data == b.data && a.owner == b.owner
    && a.executable == b.executable && a.utxo == b.utxo
  }

  predicate IsBlank(a: AccountInfo) {
    a.lamports == 0 && a.data == [] && !a.executable && a.utxo.None?
  }

  predicate CreditOnly(pre: AccountInfo, post: AccountInfo) {
    post.lamports >= pre.lamports && post.data == pre.data && post.owner == pre.owner
    && post.executable == pre.executable && post.utxo == pre.utxo
  }

  /** Legal without reference to what a callee did. */
  predicate DirectlyLegal(program: Pubkey, pre: AccountInfo, post: AccountInfo) {
    pre.owner == program || CreditOnly(pre, post) || IsBlank(pre)
  }

  datatype Gated = Gated(ok: bool, post: AccountInfo, machine: Machine)

  /** A blank account goes to its first writer unless assigned elsewhere. */
  function Claimed(program: Pubkey, pre: AccountInfo, post: AccountInfo): AccountInfo {
    if pre.owner != program && !CreditOnly(pre, post) && IsBlank(pre) && post.owner == pre.owner
    then post.(owner := program) else post
  }

  /** `validate_write`. */
  function Gate(program: Pubkey, pre: AccountInfo, post: AccountInfo, m: Machine): (g: Gated)
    ensures !g.ok ==> g.machine == m
  {
    if SameState(pre, post) then Gated(true, post, m)
    else if DirectlyLegal(program, pre, post) then
      var p := Claimed(program, pre, post);
      Gated(true, p, m.(approved := m.approved[p.key := p], records := m.records + {Record(program, pre, p)}))
    else Gated(post.key in m.approved && SameState(m.approved[post.key], post), post, m)
  }

  datatype GatedAll = GatedAll(ok: bool, posts: seq<AccountInfo>, machine: Machine)

  /** The gate applied slot by slot, stopping at the first refusal. */
  function GateAll(program: Pubkey, pres: seq<AccountInfo>, posts: seq<AccountInfo>, m: Machine): (g: GatedAll)
    requires |pres| == |posts|
    ensures |g.posts| == |posts|
    decreases |posts|
  {
    if posts == [] then GatedAll(true, [], m) else
    var first := Gate(program, pres[0], posts[0], m);
    if !first.ok then GatedAll(false, posts, m)
    else
      var rest := GateAll(program, pres[1..], posts[1..], first.machine);
      GatedAll(rest.ok, [first.post] + rest.posts, rest.machine)
  }

  // ---- windows ----

  predicate InBounds(indices: seq<nat>, n: nat) {
    forall k :: 0 <= k < |indices| ==> indices[k] < n
  }

  function Slots(accounts: seq<AccountInfo>, indices: seq<nat>): (r: seq<AccountInfo>)
    requires InBounds(indices, |accounts|)
    ensures |r| == |indices|
  {
    seq(|indices|, k requires 0 <= k < |indices| => accounts[indices[k]])
  }

  /** The signer flags set for the duration of the call. */
  function Signed(window: seq<AccountInfo>, signers: seq<nat>): (r: seq<AccountInfo>)
    ensures |r| == |window|
  {
    seq(|window|, k requires 0 <= k < |window| =>
      if k in signers then window[k].(isSigner := true) else window[k])
  }

  /** Copies a window back, keeping the caller's signer flags. */
  function WriteBack(accounts: seq<AccountInfo>, indices: seq<nat>, window: seq<AccountInfo>): (r: seq<AccountInfo>)
    requires InBounds(indices, |accounts|) && |window| == |indices|
    ensures |r| == |accounts|
    decreases |indices|
  {
    if indices == [] then accounts else
    var i := indices[0];
    WriteBack(accounts[i := window[0].(isSigner := accounts[i].isSigner)], indices[1..], window[1..])
  }

  // ---- execution ----

  function Touched(update: seq<AccountInfo> -> seq<AccountInfo>, window: seq<AccountInfo>): seq<AccountInfo> {
    if |update(window)| == |window| then update(window) else window
  }

  /** A program running its behaviour over its window. */
  function Run(b: Behavior, window: seq<AccountInfo>, m: Machine): (r: Ran)
    ensures |r.accounts| == |window|
    decreases b, 0
  {
    match b
    case Done(outcome) => Ran(outcome, window, m)
    case Touch(update, next) => Run(next, Touched(update, window), m)
    case Call(indices, signers, program, callee, onOk, onErr) =>
      var r := Invoke(window, indices, signers, program, callee, m);
      Run(if r.result.Ok? then onOk else onErr, r.accounts, r.machine)
  }

  function Cost(indices: seq<nat>): nat {
    CPI_BASE_COST + PER_ACCOUNT_COST * |indices|
  }

  /** `invoke_signed_indexed`. */
  function Invoke(accounts: seq<AccountInfo>, indices: seq<nat>, signers: seq<nat>, program: Pubkey,
                  callee: Behavior, m: Machine): (r: Ran)
    ensures |r.accounts| == |accounts|
    decreases callee, 1
  {
    if !InBounds(indices, |accounts|) then Ran(Err(NotEnoughAccounts), accounts, m)
    else if m.depth + 1 > MAX_CPI_DEPTH then Ran(Err(CpiDepthExceeded), accounts, m)
    else if m.spent + Cost(indices) > COMPUTE_BUDGET then Ran(Err(ComputeExhausted), accounts, m)
    else
      var charged := m.(spent := m.spent + Cost(indices), peak := Max(m.peak, m.depth + 1));
      var window := Slots(accounts, indices);
      if !NoDuplicateWritable(window) then Ran(Err(DuplicateWritableAccount), accounts, charged)
      else
        var inner := charged.(depth := m.depth + 1, ran := m.ran + 1);
        var r := Run(callee, Signed(window, signers), inner);
        if r.result.Err? then Ran(r.result, accounts, Leave(r.machine))
        else
          var g := GateAll(program, window, r.accounts, r.machine);
          if !g.ok then Ran(Err(IllegalOwnerWrite), accounts, Leave(g.machine))
          else Ran(Ok(()), WriteBack(accounts, indices, g.posts), Leave(g.machine))
  }

  /** Dropping the depth guard. */
  function Leave(m: Machine): Machine {
    m.(depth := if m.depth == 0 then 0 else m.depth - 1)
  }

  const FRESH := Machine(0, 0, map[], 0, 0, {})

  /** `dispatch`: a top-level execution from a cleared trail and meter. */
  function Dispatch(program: Pubkey, b: Behavior, accounts: seq<AccountInfo>): Ran {
    var r := Run(b, accounts, FRESH);
    if r.result.Err? then r
    else
      var g := GateAll(program, accounts, r.accounts, r.machine);
      Ran(if g.ok then Ok(()) else Err(IllegalOwnerWrite), g.posts, g.machine)
  }

  // ---- bounds over call trees ----

  /** Nesting and compute stay within their bounds, and each callee has paid. */
  predicate WithinBounds(m: Machine) {
    && m.depth <= MAX_CPI_DEPTH && m.peak <= MAX_CPI_DEPTH
    && m.ran * CPI_BASE_COST <= m.spent <= COMPUTE_BUDGET
  }

  lemma {:induction false} GateAllMachine(program: Pubkey, pres: seq<AccountInfo>, posts: seq<AccountInfo>, m: Machine)
    requires |pres| == |posts|
    ensures var g := GateAll(program, pres, posts, m);
            g.machine == m.(approved := g.machine.approved, records := g.machine.records)
    decreases |posts|
  {
    if posts != [] {
      var first := Gate(program, pres[0], posts[0], m);
      if first.ok {
        GateAllMachine(program, pres[1..], posts[1..], first.machine);
      }
    }
  }

  /** Over every tree of calls: bounds hold and the depth comes back as it was. */
  lemma {:induction false} RunBounds(b: Behavior, window: seq<AccountInfo>, m: Machine)
    requires WithinBounds(m)
    ensures WithinBounds(Run(b, window, m).machine)
    ensures Run(b, window, m).machine.depth == m.depth
    decreases b, 0
  {
    match b
    case Done(_) =>
    case Touch(update, next) => RunBounds(next, Touched(update, window), m);
    case Call(indices, signers, program, callee, onOk, onErr) =>
      InvokeBounds(window, indices, signers, program, callee, m);
      var r := Invoke(window, indices, signers, program, callee, m);
      RunBounds(if r.result.Ok? then onOk else onErr, r.accounts, r.machine);
  }

  lemma {:induction false} InvokeBounds(accounts: seq<AccountInfo>, indices: seq<nat>, signers: seq<nat>, program: Pubkey,
                                        callee: Behavior, m: Machine)
    requires WithinBounds(m)
    ensures WithinBounds(Invoke(accounts, indices, signers, program, callee, m).machine)
    ensures Invoke(accounts, indices, signers, program, callee, m).machine.depth == m.depth
    decreases callee, 1
  {
    hide Gate, NoDuplicateWritable, Signed, Slots, InBounds, WriteBack, GateAll, Run;
    if InBounds(indices, |accounts|) && m.depth < MAX_CPI_DEPTH && m.spent + Cost(indices) <= COMPUTE_BUDGET {
      var window := Slots(accounts, indices);
      var inner := m.(depth := m.depth + 1, spent := m.spent + Cost(indices), peak := Max(m.peak, m.depth + 1),
                      ran := m.ran + 1);
      RunBounds(callee, Signed(window, signers), inner);
      var r := Run(callee, Signed(window, signers), inner);
      if NoDuplicateWritable(window) && r.result.Ok? {
        GateAllMachine(program, window, r.accounts, r.machine);
      }
    }
  }

  /** One top-level execution: at most 4 deep, at most 1,000 callees, depth back at 0. */
  lemma DispatchBounds(program: Pubkey, b: Behavior, accounts: seq<AccountInfo>)
    ensures var m := Dispatch(program, b, accounts).machine;
            m.depth == 0 && m.peak <= 4 && m.ran <= 1_000
  {
    RunBounds(b, accounts, FRESH);
    var r := Run(b, accounts, FRESH);
    if r.result.Ok? {
      GateAllMachine(program, accounts, r.accounts, r.machine);
    }
  }

  // ---- what an invocation may do to its caller ----

  lemma {:induction false} WriteBackSigners(accounts: seq<AccountInfo>, indices: seq<nat>, window: seq<AccountInfo>, i: nat)
    requires InBounds(indices, |accounts|) && |window| == |indices| && i < |accounts|
    ensures WriteBack(accounts, indices, window)[i].isSigner == accounts[i].isSigner
    ensures i !in indices ==> WriteBack(accounts, indices, window)[i] == accounts[i]
    decreases |indices|
  {
    if indices != [] {
      var j := indices[0];
      WriteBackSigners(accounts[j := window[0].(isSigner := accounts[j].isSigner)], indices[1..], window[1..], i);
    }
  }

  /**
   A failed invocation leaves the caller's accounts as they were; a successful
   one touches only the accounts it names and never a signer flag.
   */
  lemma InvocationIsContained(accounts: seq<AccountInfo>, indices: seq<nat>, signers: seq<nat>, program: Pubkey,
                              callee: Behavior, m: Machine, i: nat)
    requires i < |accounts|
    ensures var r := Invoke(accounts, indices, signers, program, callee, m);
            && (r.result.Err? ==> r.accounts == accounts)
            && r.accounts[i].isSigner == accounts[i].isSigner
            && (i !in indices ==> r.accounts[i] == accounts[i])
  {
    hide GateAll, Run, NoDuplicateWritable;
    var r := Invoke(accounts, indices, signers, program, callee, m);
    if r.result.Ok? {
      var inner := m.(depth := m.depth + 1, spent := m.spent + Cost(indices), peak := Max(m.peak, m.depth + 1),
                      ran := m.ran + 1);
      var window := Slots(accounts, indices);
      var ran := Run(callee, Signed(window, signers), inner);
      WriteBackSigners(accounts, indices, GateAll(program, window, ran.accounts, ran.machine).posts, i);
    }
  }

  // ---- provenance of writes ----

  /** Some program was directly entitled to leave the account of `key` in this state. */
  ghost predicate Authored(m: Machine, key: Pubkey, state: AccountInfo) {
    exists r :: r in m.records && r.post.key == key && SameState(r.post, state)
  }

  /** Every record was directly legal, and every trail entry is a recorded post-state. */
  ghost predicate TrailSound(m: Machine) {
    && (forall r :: r in m.records ==> DirectlyLegal(r.program, r.pre, r.post))
    && (forall k :: k in m.approved ==> m.approved[k].key == k && Authored(m, k, m.approved[k]))
  }

  lemma GateSound(program: Pubkey, pre: AccountInfo, post: AccountInfo, m: Machine)
    requires TrailSound(m)
    ensures var g := Gate(program, pre, post, m);
            && TrailSound(g.machine) && m.records <= g.machine.records
            && (g.ok ==> SameState(pre, g.post) || Authored(g.machine, g.post.key, g.post))
  {
    var g := Gate(program, pre, post, m);
    if g.machine != m {
      var rec := Record(program, pre, g.post);
      assert rec in g.machine.records;
      forall k | k in g.machine.approved
        ensures g.machine.approved[k].key == k && Authored(g.machine, k, g.machine.approved[k])
      {
        if k != g.post.key {
          AuthoredGrows(m, g.machine, k, m.approved[k]);
        }
      }
    } else if g.ok && !SameState(pre, post) {
      assert Authored(m, post.key, m.approved[post.key]);
    }
  }

  lemma AuthoredGrows(m: Machine, m': Machine, key: Pubkey, state: AccountInfo)
    requires m.records <= m'.records && Authored(m, key, state)
    ensures Authored(m', key, state)
  {
    var r :| r in m.records && r.post.key == key && SameState(r.post, state);
    assert r in m'.records;
  }

  lemma {:induction false} GateAllSound(program: Pubkey, pres: seq<AccountInfo>, posts: seq<AccountInfo>, m: Machine)
    requires |pres| == |posts| && TrailSound(m)
    ensures var g := GateAll(program, pres, posts, m);
            && TrailSound(g.machine) && m.records <= g.machine.records
            && (g.ok ==> forall i :: 0 <= i < |pres| ==>
                  SameState(pres[i], g.posts[i]) || Authored(g.machine, g.posts[i].key, g.posts[i]))
    decreases |posts|
  {
    hide TrailSound, Gate;
    if posts != [] {
      GateSound(program, pres[0], posts[0], m);
      var first := Gate(program, pres[0], posts[0], m);
      if first.ok {
        GateAllSound(program, pres[1..], posts[1..], first.machine);
        var g := GateAll(program, pres, posts, m);
        if !SameState(pres[0], first.post) {
          AuthoredGrows(first.machine, g.machine, first.post.key, first.post);
        }
        forall i | 0 < i < |pres| && g.ok
          ensures SameState(pres[i], g.posts[i]) || Authored(g.machine, g.posts[i].key, g.posts[i])
        {
          assert pres[i] == pres[1..][i - 1];
        }
      }
    }
  }

  lemma {:induction false} RunSound(b: Behavior, window: seq<AccountInfo>, m: Machine)
    requires TrailSound(m)
    ensures TrailSound(Run(b, window, m).machine)
    decreases b, 0
  {
    hide TrailSound;
    match b
    case Done(_) =>
    case Touch(update, next) => RunSound(next, Touched(update, window), m);
    case Call(indices, signers, program, callee, onOk, onErr) =>
      InvokeSound(window, indices, signers, program, callee, m);
      var r := Invoke(window, indices, signers, program, callee, m);
      RunSound(if r.result.Ok? then onOk else onErr, r.accounts, r.machine);
  }

  /** The trail reads neither the depth nor the meter. */
  lemma TrailFrame(a: Machine, b: Machine)
    requires TrailSound(a) && a.approved == b.approved && a.records == b.records
    ensures TrailSound(b)
  {
    forall k | k in b.approved
      ensures b.approved[k].key == k && Authored(b, k, b.approved[k])
    {
      AuthoredGrows(a, b, k, a.approved[k]);
    }
  }

  lemma {:induction false} InvokeSound(accounts: seq<AccountInfo>, indices: seq<nat>, signers: seq<nat>, program: Pubkey,
                                       callee: Behavior, m: Machine)
    requires TrailSound(m)
    ensures TrailSound(Invoke(accounts, indices, signers, program, callee, m).machine)
    decreases callee, 1
  {
    hide TrailSound, NoDuplicateWritable, GateAll, Signed, Slots, InBounds, WriteBack, Run;
    var out := Invoke(accounts, indices, signers, program, callee, m);
    if InBounds(indices, |accounts|) && m.depth < MAX_CPI_DEPTH && m.spent + Cost(indices) <= COMPUTE_BUDGET {
      var window := Slots(accounts, indices);
      if !NoDuplicateWritable(window) {
        TrailFrame(m, out.machine);
      } else {
        var inner := m.(depth := m.depth + 1, spent := m.spent + Cost(indices), peak := Max(m.peak, m.depth + 1),
                        ran := m.ran + 1);
        TrailFrame(m, inner);
        RunSound(callee, Signed(window, signers), inner);
        var r := Run(callee, Signed(window, signers), inner);
        if r.result.Err? {
          TrailFrame(r.machine, out.machine);
        } else {
          GateAllSound(program, window, r.accounts, r.machine);
          TrailFrame(GateAll(program, window, r.accounts, r.machine).machine, out.machine);
        }
      }
    }
  }

  /**
   Every account a successful top-level execution changed ends in a state some
   program in the tree was directly entitled to produce.
   */
  lemma ChangesAreAuthored(program: Pubkey, b: Behavior, accounts: seq<AccountInfo>, i: nat)
    requires Dispatch(program, b, accounts).result.Ok? && i < |accounts|
    ensures var d := Dispatch(program, b, accounts);
            |d.accounts| == |accounts| && TrailSound(d.machine)
            && (SameState(accounts[i], d.accounts[i])
                || Authored(d.machine, d.accounts[i].key, d.accounts[i]))
  {
    hide GateAll, Run;
    assert TrailSound(FRESH);
    RunSound(b, accounts, FRESH);
    var r := Run(b, accounts, FRESH);
    GateAllSound(program, accounts, r.accounts, r.machine);
  }
}
