/**
 "At most one leader per term" read off `is_leader` and `current_term` is not
 what the code gives: a run of three members ends with two such leaders.
 */
module SplitTerm {
  import opened Common
  import opened Election
  import opened ElectionProtocol

  ghost predicate Reaches(members: seq<Id>, s: State, t: State) {
    exists run :: Legal(members, s, run) && After(members, s, run) == t
  }

  lemma {:induction false} RunSnoc(members: seq<Id>, s: State, run: seq<Action>, a: Action)
    requires Legal(members, s, run) && Enabled(members, After(members, s, run), a)
    ensures Legal(members, s, run + [a])
    ensures After(members, s, run + [a]) == Do(members, After(members, s, run), a)
    decreases |run|
  {
    hide Enabled, Do;
    if run == [] {
      assert [a][1..] == [];
      assert run + [a] == [a];
      assert Legal(members, Do(members, s, a), []);
    } else {
      RunSnoc(members, Do(members, s, run[0]), run[1..], a);
      assert (run + [a])[1..] == run[1..] + [a];
    }
  }

  lemma Next(members: seq<Id>, s: State, t: State, a: Action)
    requires Reaches(members, s, t) && Enabled(members, t, a)
    ensures Reaches(members, s, Do(members, t, a))
  {
    hide Enabled, Do;
    var run :| Legal(members, s, run) && After(members, s, run) == t;
    RunSnoc(members, s, run, a);
  }

  /** The member asked next answers a poll and is heard. */
  lemma PollNext(members: seq<Id>, s: State, t: State, m: Id, v: Id) returns (u: State)
    requires Reaches(members, s, t)
    requires Known(t, m) && Known(t, v) && m != v
    requires t.phases[m].PreVoting? && Asking(members, t.phases[m]) && members[t.phases[m].next] == v
    requires !t.nodes[v].isLeader && t.nodes[v].term <= t.phases[m].poll
    ensures Reaches(members, s, u)
    ensures u.nodes == t.nodes
    ensures var p := t.phases[m];
            u.phases == t.phases[m := PreVoting(p.poll, p.next + 1, p.preVotes + 1, p.backers + {v})]
  {
    hide Reaches;
    var p := t.phases[m];
    var req := PreVoteReq(m, v, p.poll);
    Next(members, s, t, Ask(m));
    var t1 := Do(members, t, Ask(m));
    Next(members, s, t1, AnswerPreVote(req));
    var t2 := Do(members, t1, AnswerPreVote(req));
    var rep := PreVoteRep(v, m, p.poll, ConsiderPreVote(t.nodes[v], p.poll));
    Next(members, s, t2, HearPreVote(m, rep));
    u := Do(members, t2, HearPreVote(m, rep));
  }

  /** The member asked next receives the vote request and answers it. */
  lemma VoteAsked(members: seq<Id>, s: State, t: State, m: Id, v: Id) returns (u: State)
    requires Reaches(members, s, t)
    requires Known(t, m) && Known(t, v) && m != v
    requires t.phases[m].Voting? && Asking(members, t.phases[m]) && members[t.phases[m].next] == v
    ensures Reaches(members, s, u)
    ensures var voted := ConsiderVote(t.nodes[v], t.phases[m].term, m);
            && u.nodes == t.nodes[v := voted.node]
            && u.phases == t.phases
            && VoteRep(v, m, t.phases[m].term, voted.reply) in u.net
  {
    hide Reaches;
    var req := VoteReq(m, v, t.phases[m].term);
    Next(members, s, t, Ask(m));
    var t1 := Do(members, t, Ask(m));
    Next(members, s, t1, AnswerVote(req));
    u := Do(members, t1, AnswerVote(req));
  }

  /** ... and a granted reply is heard. */
  lemma VoteHeard(members: seq<Id>, s: State, t: State, m: Id, v: Id) returns (u: State)
    requires Reaches(members, s, t)
    requires Known(t, m) && Known(t, v) && m != v
    requires t.phases[m].Voting? && Asking(members, t.phases[m]) && members[t.phases[m].next] == v
    requires ConsiderVote(t.nodes[v], t.phases[m].term, m).reply.granted
    ensures Reaches(members, s, u)
    ensures u.nodes == t.nodes[v := ConsiderVote(t.nodes[v], t.phases[m].term, m).node]
    ensures var p := t.phases[m];
            u.phases == t.phases[m := Voting(p.term, p.next + 1, p.votes + 1, p.voters + {v})]
  {
    hide Reaches;
    var t1 := VoteAsked(members, s, t, m, v);
    var rep := VoteRep(v, m, t.phases[m].term, ConsiderVote(t.nodes[v], t.phases[m].term, m).reply);
    Next(members, s, t1, HearVote(m, rep));
    u := Do(members, t1, HearVote(m, rep));
  }

  lemma Skipped(members: seq<Id>, s: State, t: State, m: Id) returns (u: State)
    requires Reaches(members, s, t) && Known(t, m) && Asking(members, t.phases[m])
    ensures Reaches(members, s, u)
    ensures u.nodes == t.nodes && u.phases == t.phases[m := PassOver(t.phases[m])]
  {
    Next(members, s, t, Skip(m));
    u := Do(members, t, Skip(m));
  }

  lemma PollBegun(members: seq<Id>, s: State, t: State, m: Id) returns (u: State)
    requires Reaches(members, s, t) && Known(t, m) && t.phases[m].Idle? && t.nodes[m].term < U64_MAX
    ensures Reaches(members, s, u)
    ensures u.nodes == t.nodes && u.phases == t.phases[m := PreVoting(t.nodes[m].term + 1, 0, 1, {m})]
  {
    Next(members, s, t, BeginPreVote(m));
    u := Do(members, t, BeginPreVote(m));
  }

  lemma CandidacyOpened(members: seq<Id>, s: State, t: State, m: Id) returns (u: State)
    requires Reaches(members, s, t) && Known(t, m) && t.nodes[m].term < U64_MAX
    requires t.phases[m].PreVoting? && t.phases[m].next == |members|
    requires HasQuorum(t.phases[m].preVotes, |members|)
    ensures Reaches(members, s, u)
    ensures u.nodes == t.nodes[m := StartCandidacy(t.nodes[m], m)]
    ensures u.phases == t.phases[m := Voting(t.nodes[m].term + 1, 0, 1, {m})]
  {
    Next(members, s, t, ClosePreVote(m));
    u := Do(members, t, ClosePreVote(m));
  }

  lemma WonAndPromoted(members: seq<Id>, s: State, t: State, m: Id) returns (u: State)
    requires Reaches(members, s, t) && Known(t, m)
    requires t.phases[m].Voting? && t.phases[m].next == |members|
    requires HasQuorum(t.phases[m].votes, |members|)
    ensures Reaches(members, s, u)
    ensures u.nodes == t.nodes[m := BecomeLeader(t.nodes[m], m)]
    ensures u.phases == t.phases[m := Promoted(t.phases[m].term)]
  {
    Next(members, s, t, CloseVote(m));
    var won := Do(members, t, CloseVote(m));
    Next(members, s, won, Promote(m));
    u := Do(members, won, Promote(m));
  }

  /** `a` opens term 1. */
  lemma FirstPoll(a: Id, b: Id, c: Id) returns (u: State)
    requires a != b && b != c && a != c
    ensures Reaches([a, b, c], Init([a, b, c], None), u)
    ensures u.nodes == map[a := Node(1, Some(a), false, None), b := DEFAULT_NODE, c := DEFAULT_NODE]
    ensures u.phases == map[a := Voting(1, 0, 1, {a}), b := Idle, c := Idle]
  {
    hide Reaches, Init;
    var ms := [a, b, c];
    var s := Init(ms, None);
    StartsBlank(a, b, c);
    var t := PollBegun(ms, s, s, a);
    t := Skipped(ms, s, t, a);
    t := PollNext(ms, s, t, a, b);
    t := Skipped(ms, s, t, a);
    u := CandidacyOpened(ms, s, t, a);
    assert u.phases == map[a := Voting(1, 0, 1, {a}), b := Idle, c := Idle];
  }

  lemma StartsBlank(a: Id, b: Id, c: Id)
    ensures var s := Init([a, b, c], None);
            && Reaches([a, b, c], s, s)
            && s.nodes == map[a := DEFAULT_NODE, b := DEFAULT_NODE, c := DEFAULT_NODE]
            && s.phases == map[a := Idle, b := Idle, c := Idle]
  {
    var s := Init([a, b, c], None);
    assert Legal([a, b, c], s, []) && After([a, b, c], s, []) == s;
  }

  /** `a` has `b`'s vote in term 1, and `c` has heard of it. */
  lemma FirstCandidacy(a: Id, b: Id, c: Id) returns (u: State)
    requires a != b && b != c && a != c
    ensures Reaches([a, b, c], Init([a, b, c], None), u)
    ensures u.nodes == map[a := Node(1, Some(a), false, None), b := Node(1, Some(a), false, None),
                           c := Node(1, Some(a), false, None)]
    ensures u.phases == map[a := Voting(1, 2, 2, {a, b}), b := Idle, c := Idle]
  {
    hide Reaches, Init;
    var ms := [a, b, c];
    var s := Init(ms, None);
    var t := FirstPoll(a, b, c);
    t := Skipped(ms, s, t, a);
    t := VoteHeard(ms, s, t, a, b);
    u := VoteAsked(ms, s, t, a, c);
    assert {a} + {b} == {a, b};
    assert u.phases == map[a := Voting(1, 2, 2, {a, b}), b := Idle, c := Idle];
  }

  /** Meanwhile `c` opens term 2. */
  lemma SecondPoll(a: Id, b: Id, c: Id) returns (u: State)
    requires a != b && b != c && a != c
    ensures Reaches([a, b, c], Init([a, b, c], None), u)
    ensures u.nodes == map[a := Node(1, Some(a), false, None), b := Node(1, Some(a), false, None),
                           c := Node(2, Some(c), false, None)]
    ensures u.phases == map[a := Voting(1, 2, 2, {a, b}), b := Idle, c := Voting(2, 0, 1, {c})]
  {
    hide Reaches, Init;
    var ms := [a, b, c];
    var s := Init(ms, None);
    var t := FirstCandidacy(a, b, c);
    t := PollBegun(ms, s, t, c);
    t := PollNext(ms, s, t, c, a);
    t := Skipped(ms, s, t, c);
    t := Skipped(ms, s, t, c);
    u := CandidacyOpened(ms, s, t, c);
    assert u.phases == map[a := Voting(1, 2, 2, {a, b}), b := Idle, c := Voting(2, 0, 1, {c})];
  }

  /** `c` takes `a`'s vote in term 2, and leads it. */
  lemma SecondCandidacy(a: Id, b: Id, c: Id) returns (u: State)
    requires a != b && b != c && a != c
    ensures Reaches([a, b, c], Init([a, b, c], None), u)
    ensures u.nodes == map[a := Node(2, Some(c), false, None), b := Node(1, Some(a), false, None),
                           c := Node(2, Some(c), true, Some(c))]
    ensures u.phases == map[a := Voting(1, 2, 2, {a, b}), b := Idle, c := Promoted(2)]
  {
    hide Reaches, Init;
    var ms := [a, b, c];
    var s := Init(ms, None);
    var t := SecondPoll(a, b, c);
    t := VoteHeard(ms, s, t, c, a);
    t := Skipped(ms, s, t, c);
    t := Skipped(ms, s, t, c);
    u := WonAndPromoted(ms, s, t, c);
    assert u.phases == map[a := Voting(1, 2, 2, {a, b}), b := Idle, c := Promoted(2)];
  }

  /**
   `a` then counts out its term-1 win while already in term 2, and is marked
   leader of term 2 beside `c`.
   */
  lemma TwoLeadersOneTerm(a: Id, b: Id, c: Id) returns (run: seq<Action>)
    requires a != b && b != c && a != c
    ensures Distinct([a, b, c]) && Legal([a, b, c], Init([a, b, c], None), run)
    ensures var s := After([a, b, c], Init([a, b, c], None), run);
            && a in s.nodes && c in s.nodes
            && s.nodes[a].isLeader && s.nodes[c].isLeader
            && s.nodes[a].term == s.nodes[c].term == 2
  {
    hide Init, Enabled, Do;
    var ms := [a, b, c];
    var s := Init(ms, None);
    var t := SecondCandidacy(a, b, c);
    t := Skipped(ms, s, t, a);
    t := WonAndPromoted(ms, s, t, a);
    run :| Legal(ms, s, run) && After(ms, s, run) == t;
  }
}
