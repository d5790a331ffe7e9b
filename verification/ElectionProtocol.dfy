/**
 The cluster as a message-level step system: every interleaving of pre-votes,
 votes, lost, delayed or repeated messages, discovery and promotion.
 */
module ElectionProtocol {
  import opened Common
  import opened Election

  /**
   Where a member's failover task stands. `next` indexes the member it asks;
   `backers` and `voters` are history: who the count is made of.
   */
  datatype Phase =
    | Idle
    | PreVoting(poll: u64, next: nat, preVotes: nat, backers: set<Id>)
    | Voting(term: u64, next: nat, votes: nat, voters: set<Id>)
    | Won(term: u64, voters: set<Id>)
    | Promoted(term: u64)

  /** A reply names the request it answers, as an HTTP response does. */
  datatype Msg =
    | PreVoteReq(from: Id, to: Id, term: u64)
    | PreVoteRep(from: Id, to: Id, asked: u64, reply: VoteReply)
    | VoteReq(from: Id, to: Id, term: u64)
    | VoteRep(from: Id, to: Id, asked: u64, reply: VoteReply)
    | LeaderInfo(from: Id, term: u64, leader: Id)

  datatype Ballot = Ballot(voter: Id, term: u64, candidate: Id)

  datatype Win = Win(term: u64, candidate: Id, voters: set<Id>)

  /** A granted poll, with the voter as it was when it answered. */
  datatype Endorsement = Endorsement(voter: Id, poll: u64, candidate: Id, wasLeading: bool, atTerm: u64)

  /** `cast`, `wins` and `endorsed` are history: every vote granted, quorum collected and poll granted. */
  datatype State = State(
    nodes: map<Id, Node>,
    phases: map<Id, Phase>,
    net: set<Msg>,
    cast: set<Ballot>,
    wins: set<Win>,
    endorsed: set<Endorsement>)

  datatype Action =
    | BeginPreVote(m: Id)
    | Ask(m: Id)
    | AnswerPreVote(msg: Msg)
    | AnswerVote(msg: Msg)
    | HearPreVote(m: Id, msg: Msg)
    | HearVote(m: Id, msg: Msg)
    | Skip(m: Id)
    | ClosePreVote(m: Id)
    | CloseVote(m: Id)
    | Promote(m: Id)
    | Advertise(m: Id)
    | Discover(m: Id, msg: Msg)

  function MemberSet(members: seq<Id>): set<Id> {
    set m | m in members
  }

  /** Everyone starts blank; the configured primary, if any, already leads term 0. */
  function Init(members: seq<Id>, primary: Option<Id>): State {
    State(map m | m in MemberSet(members) :: if primary == Some(m) then BecomeLeader(DEFAULT_NODE, m) else DEFAULT_NODE,
          map m | m in MemberSet(members) :: Idle, {}, {}, {}, {})
  }

  predicate Known(s: State, m: Id) {
    m in s.nodes && m in s.phases
  }

  predicate Asking(members: seq<Id>, p: Phase) {
    (p.PreVoting? || p.Voting?) && p.next < |members|
  }

  predicate Enabled(members: seq<Id>, s: State, a: Action) {
    match a
    case BeginPreVote(m) => Known(s, m) && s.phases[m].Idle? && s.nodes[m].term < U64_MAX
    case Ask(m) => Known(s, m) && Asking(members, s.phases[m]) && members[s.phases[m].next] != m
    case AnswerPreVote(msg) => msg in s.net && msg.PreVoteReq? && Known(s, msg.to)
    case AnswerVote(msg) => msg in s.net && msg.VoteReq? && Known(s, msg.to)
    case HearPreVote(m, msg) =>
      && Known(s, m) && s.phases[m].PreVoting? && Asking(members, s.phases[m])
      && msg in s.net && msg.PreVoteRep? && msg.to == m
      && msg.from == members[s.phases[m].next] != m && msg.asked == s.phases[m].poll
    case HearVote(m, msg) =>
      && Known(s, m) && s.phases[m].Voting? && Asking(members, s.phases[m])
      && msg in s.net && msg.VoteRep? && msg.to == m
      && msg.from == members[s.phases[m].next] != m && msg.asked == s.phases[m].term
    case Skip(m) => Known(s, m) && Asking(members, s.phases[m])
    case ClosePreVote(m) =>
      && Known(s, m) && s.phases[m].PreVoting? && s.phases[m].next == |members|
      && s.nodes[m].term < U64_MAX
    case CloseVote(m) => Known(s, m) && s.phases[m].Voting? && s.phases[m].next == |members|
    case Promote(m) => Known(s, m) && s.phases[m].Won?
    case Advertise(m) => Known(s, m) && s.nodes[m].leader.Some?
    case Discover(m, msg) =>
      Known(s, m) && s.phases[m].Idle? && msg in s.net && msg.LeaderInfo? && msg.leader != m
  }

  /** On to the next member without counting this one. */
  function PassOver(p: Phase): Phase {
    match p
    case PreVoting(poll, next, preVotes, backers) => PreVoting(poll, next + 1, preVotes, backers)
    case Voting(term, next, votes, voters) => Voting(term, next + 1, votes, voters)
    case _ => p
  }

  function CountPreVote(s: State, m: Id, msg: Msg): State
    requires Known(s, m) && s.phases[m].PreVoting? && msg.PreVoteRep?
  {
    var p := s.phases[m];
    if msg.reply.granted then
      s.(phases := s.phases[m := PreVoting(p.poll, p.next + 1, p.preVotes + 1, p.backers + {msg.from})])
    else
      s.(phases := s.phases[m := PassOver(p)],
         nodes := s.nodes[m := ObserveTerm(s.nodes[m], msg.reply.term)])
  }

  function CountVote(s: State, m: Id, msg: Msg): State
    requires Known(s, m) && s.phases[m].Voting? && msg.VoteRep?
  {
    var p := s.phases[m];
    if msg.reply.granted then
      s.(phases := s.phases[m := Voting(p.term, p.next + 1, p.votes + 1, p.voters + {msg.from})])
    else
      s.(phases := s.phases[m := PassOver(p)],
         nodes := s.nodes[m := ObserveTerm(s.nodes[m], msg.reply.term)])
  }

  /** A member answers a poll, without changing its own state. */
  function GivePreVote(s: State, msg: Msg): State
    requires msg.PreVoteReq? && Known(s, msg.to)
  {
    var n := s.nodes[msg.to];
    var reply := ConsiderPreVote(n, msg.term);
    s.(net := s.net + {PreVoteRep(msg.to, msg.from, msg.term, reply)},
       endorsed := if reply.granted
                   then s.endorsed + {Endorsement(msg.to, msg.term, msg.from, n.isLeader, n.term)} else s.endorsed)
  }

  /** A voter handles a request: its vote is recorded when granted. */
  function GiveVote(s: State, msg: Msg): State
    requires msg.VoteReq? && Known(s, msg.to)
  {
    var v := ConsiderVote(s.nodes[msg.to], msg.term, msg.from);
    s.(nodes := s.nodes[msg.to := v.node],
       net := s.net + {VoteRep(msg.to, msg.from, msg.term, v.reply)},
       cast := if v.reply.granted then s.cast + {Ballot(msg.to, msg.term, msg.from)} else s.cast)
  }

  /** The pre-vote round is over: a quorum opens a candidacy. */
  function OpenCandidacy(members: seq<Id>, s: State, m: Id): State
    requires Known(s, m) && s.phases[m].PreVoting? && s.nodes[m].term < U64_MAX
  {
    if !HasQuorum(s.phases[m].preVotes, |members|) then s.(phases := s.phases[m := Idle])
    else
      var n := StartCandidacy(s.nodes[m], m);
      s.(nodes := s.nodes[m := n],
         phases := s.phases[m := Voting(n.term, 0, 1, {m})],
         cast := s.cast + {Ballot(m, n.term, m)})
  }

  function CountOut(members: seq<Id>, s: State, m: Id): State
    requires Known(s, m) && s.phases[m].Voting?
  {
    var p := s.phases[m];
    if !HasQuorum(p.votes, |members|) then s.(phases := s.phases[m := Idle])
    else s.(phases := s.phases[m := Won(p.term, p.voters)], wins := s.wins + {Win(p.term, m, p.voters)})
  }

  function Do(members: seq<Id>, s: State, a: Action): State
    requires Enabled(members, s, a)
  {
    match a
    case BeginPreVote(m) => s.(phases := s.phases[m := PreVoting(s.nodes[m].term + 1, 0, 1, {m})])
    case Ask(m) =>
      var p := s.phases[m];
      var req := if p.PreVoting? then PreVoteReq(m, members[p.next], p.poll) else VoteReq(m, members[p.next], p.term);
      s.(net := s.net + {req})
    case AnswerPreVote(msg) => GivePreVote(s, msg)
    case AnswerVote(msg) => GiveVote(s, msg)
    case HearPreVote(m, msg) => CountPreVote(s, m, msg)
    case HearVote(m, msg) => CountVote(s, m, msg)
    case Skip(m) => s.(phases := s.phases[m := PassOver(s.phases[m])])
    case ClosePreVote(m) => OpenCandidacy(members, s, m)
    case CloseVote(m) => CountOut(members, s, m)
    case Promote(m) =>
      s.(nodes := s.nodes[m := BecomeLeader(s.nodes[m], m)],
         phases := s.phases[m := Promoted(s.phases[m].term)])
    case Advertise(m) => s.(net := s.net + {LeaderInfo(m, s.nodes[m].term, s.nodes[m].leader.value)})
    case Discover(m, msg) => s.(nodes := s.nodes[m := ObserveLeader(s.nodes[m], msg.term, msg.leader)])
  }

  /** Every action of the run is enabled when its turn comes. */
  predicate Legal(members: seq<Id>, s: State, run: seq<Action>)
    decreases |run|
  {
    run != [] ==> Enabled(members, s, run[0]) && Legal(members, Do(members, s, run[0]), run[1..])
  }

  function After(members: seq<Id>, s: State, run: seq<Action>): State
    requires Legal(members, s, run)
    decreases |run|
  {
    if run == [] then s else After(members, Do(members, s, run[0]), run[1..])
  }

  // ---- the invariant ----

  ghost predicate Shape(members: seq<Id>, s: State) {
    s.nodes.Keys == s.phases.Keys == MemberSet(members)
  }

  /** A recorded vote is never from the future, and a current one is remembered. */
  ghost predicate VotesRemembered(nodes: map<Id, Node>, cast: set<Ballot>) {
    forall b :: b in cast ==>
      && b.voter in nodes
      && b.term <= nodes[b.voter].term
      && (b.term == nodes[b.voter].term ==> nodes[b.voter].votedFor == Some(b.candidate))
  }

  ghost predicate OneVotePerTerm(cast: set<Ballot>) {
    forall b, c :: b in cast && c in cast && b.voter == c.voter && b.term == c.term
      ==> b.candidate == c.candidate
  }

  ghost predicate GrantsRecorded(net: set<Msg>, cast: set<Ballot>) {
    forall r :: r in net && r.VoteRep? && r.reply.granted ==> Ballot(r.from, r.asked, r.to) in cast
  }

  ghost predicate VotedBy(s: State, voters: set<Id>, term: u64, candidate: Id) {
    forall v :: v in voters ==> Ballot(v, term, candidate) in s.cast
  }

  /** A count in progress is the size of a set of members already passed. */
  ghost predicate Counted(members: seq<Id>, m: Id, next: nat, count: nat, who: set<Id>) {
    && next <= |members|
    && count == |who|
    && m in who
    && forall v :: v in who ==> v == m || v in members[..next]
  }

  ghost predicate PhaseOk(members: seq<Id>, s: State, m: Id, p: Phase) {
    match p
    case PreVoting(_, next, preVotes, backers) => Counted(members, m, next, preVotes, backers)
    case Voting(term, next, votes, voters) =>
      Counted(members, m, next, votes, voters) && VotedBy(s, voters, term, m)
    case _ => true
  }

  ghost predicate PhasesOk(members: seq<Id>, s: State) {
    forall m :: m in s.phases ==> PhaseOk(members, s, m, s.phases[m])
  }

  ghost predicate WinOk(members: seq<Id>, s: State, w: Win) {
    && w.term > 0
    && w.voters <= MemberSet(members)
    && HasQuorum(|w.voters|, |members|)
    && VotedBy(s, w.voters, w.term, w.candidate)
    && w.candidate in s.phases
    && (s.phases[w.candidate] == Won(w.term, w.voters) || s.phases[w.candidate] == Promoted(w.term))
  }

  ghost predicate WinsOk(members: seq<Id>, s: State) {
    forall w :: w in s.wins ==> WinOk(members, s, w)
  }

  /** No message carries a term its sender has not reached. */
  ghost predicate TermsSent(nodes: map<Id, Node>, net: set<Msg>) {
    forall r :: r in net ==>
      && r.from in nodes
      && match r
         case PreVoteReq(_, _, _) => true
         case PreVoteRep(f, _, _, reply) => reply.term <= nodes[f].term
         case VoteReq(f, _, t) => t <= nodes[f].term
         case VoteRep(f, _, _, reply) => reply.term <= nodes[f].term
         case LeaderInfo(f, t, _) => t <= nodes[f].term
  }

  /** A candidacy runs at a term its candidate has reached, and a won one is recorded. */
  ghost predicate CandidaciesReached(s: State) {
    forall m :: m in s.phases && (s.phases[m].Voting? || s.phases[m].Won?) ==>
      && m in s.nodes
      && 0 < s.phases[m].term <= s.nodes[m].term
      && (s.phases[m].Won? ==> Win(s.phases[m].term, m, s.phases[m].voters) in s.wins)
  }

  /** Who voted for whom, and which terms are about. */
  ghost predicate VotesOk(members: seq<Id>, s: State) {
    && Shape(members, s)
    && VotesRemembered(s.nodes, s.cast)
    && OneVotePerTerm(s.cast)
    && GrantsRecorded(s.net, s.cast)
    && TermsSent(s.nodes, s.net)
    && CandidaciesReached(s)
  }

  ghost predicate Inv(members: seq<Id>, s: State) {
    VotesOk(members, s) && PhasesOk(members, s) && WinsOk(members, s)
  }

  lemma InitInv(members: seq<Id>, primary: Option<Id>)
    ensures Inv(members, Init(members, primary))
  {
  }

  /** A node may only move its term up, and forget its vote only by doing so. */
  lemma NodeAdvances(s: State, m: Id, n: Node)
    requires m in s.nodes && s.nodes[m].term <= n.term
    requires s.nodes[m].term == n.term ==> s.nodes[m].votedFor == n.votedFor
    requires VotesRemembered(s.nodes, s.cast) && TermsSent(s.nodes, s.net)
    ensures VotesRemembered(s.nodes[m := n], s.cast) && TermsSent(s.nodes[m := n], s.net)
  {
  }

  lemma CountedSkip(members: seq<Id>, m: Id, next: nat, count: nat, who: set<Id>)
    requires Counted(members, m, next, count, who) && next < |members|
    ensures Counted(members, m, next + 1, count, who)
  {
    assert members[..next + 1] == members[..next] + [members[next]];
  }

  lemma CountedAdd(members: seq<Id>, m: Id, next: nat, count: nat, who: set<Id>)
    requires Counted(members, m, next, count, who) && next < |members|
    requires Distinct(members) && members[next] != m
    ensures Counted(members, m, next + 1, count + 1, who + {members[next]})
  {
    assert members[..next + 1] == members[..next] + [members[next]];
    assert members[next] !in who;
  }

  lemma BeginPreVoteInv(members: seq<Id>, s: State, a: Action)
    requires Inv(members, s) && Enabled(members, s, a) && a.BeginPreVote?
    ensures Inv(members, Do(members, s, a))
  {
    hide VotesRemembered, TermsSent, OneVotePerTerm, GrantsRecorded;
  }

  lemma AskInv(members: seq<Id>, s: State, a: Action)
    requires Inv(members, s) && Enabled(members, s, a) && a.Ask?
    ensures Inv(members, Do(members, s, a))
  {
  }

  lemma AnswerPreVoteInv(members: seq<Id>, s: State, a: Action)
    requires Inv(members, s) && Enabled(members, s, a) && a.AnswerPreVote?
    ensures Inv(members, Do(members, s, a))
  {
  }

  lemma AnswerVoteVotes(members: seq<Id>, s: State, a: Action)
    requires Inv(members, s) && Enabled(members, s, a) && a.AnswerVote?
    ensures VotesOk(members, Do(members, s, a))
  {
    hide PhasesOk, WinsOk;
  }

  lemma AnswerVoteCounts(members: seq<Id>, s: State, a: Action)
    requires Inv(members, s) && Enabled(members, s, a) && a.AnswerVote?
    ensures PhasesOk(members, Do(members, s, a)) && WinsOk(members, Do(members, s, a))
  {
    hide Counted, HasQuorum;
  }

  lemma HearPreVoteVotes(members: seq<Id>, s: State, a: Action)
    requires Distinct(members) && Inv(members, s) && Enabled(members, s, a) && a.HearPreVote?
    ensures VotesOk(members, Do(members, s, a))
  {
    hide PhasesOk, WinsOk, VotesRemembered, TermsSent, OneVotePerTerm, GrantsRecorded;
    NodeAdvances(s, a.m, ObserveTerm(s.nodes[a.m], a.msg.reply.term));
  }

  lemma HearPreVoteCounts(members: seq<Id>, s: State, a: Action)
    requires Distinct(members) && Inv(members, s) && Enabled(members, s, a) && a.HearPreVote?
    ensures PhasesOk(members, Do(members, s, a)) && WinsOk(members, Do(members, s, a))
  {
    hide Counted, HasQuorum, VotesRemembered, TermsSent, ObserveTerm;
    var p := s.phases[a.m];
    if a.msg.reply.granted {
      CountedAdd(members, a.m, p.next, p.preVotes, p.backers);
    } else {
      CountedSkip(members, a.m, p.next, p.preVotes, p.backers);
    }
  }

  lemma HearVoteVotes(members: seq<Id>, s: State, a: Action)
    requires Distinct(members) && Inv(members, s) && Enabled(members, s, a) && a.HearVote?
    ensures VotesOk(members, Do(members, s, a))
  {
    hide PhasesOk, WinsOk, VotesRemembered, TermsSent, OneVotePerTerm, GrantsRecorded;
    NodeAdvances(s, a.m, ObserveTerm(s.nodes[a.m], a.msg.reply.term));
  }

  lemma HearVoteCounts(members: seq<Id>, s: State, a: Action)
    requires Distinct(members) && Inv(members, s) && Enabled(members, s, a) && a.HearVote?
    ensures PhasesOk(members, Do(members, s, a)) && WinsOk(members, Do(members, s, a))
  {
    hide Counted, HasQuorum, VotesRemembered, TermsSent, ObserveTerm;
    var p := s.phases[a.m];
    if a.msg.reply.granted {
      CountedAdd(members, a.m, p.next, p.votes, p.voters);
    } else {
      CountedSkip(members, a.m, p.next, p.votes, p.voters);
    }
  }

  lemma SkipInv(members: seq<Id>, s: State, a: Action)
    requires Inv(members, s) && Enabled(members, s, a) && a.Skip?
    ensures Inv(members, Do(members, s, a))
  {
    hide VotesRemembered, TermsSent, OneVotePerTerm, GrantsRecorded, Counted;
    var p := s.phases[a.m];
    if p.PreVoting? {
      CountedSkip(members, a.m, p.next, p.preVotes, p.backers);
    } else {
      CountedSkip(members, a.m, p.next, p.votes, p.voters);
    }
  }

  lemma ClosePreVoteVotes(members: seq<Id>, s: State, a: Action)
    requires Inv(members, s) && Enabled(members, s, a) && a.ClosePreVote?
    ensures VotesOk(members, Do(members, s, a))
  {
    hide PhasesOk, WinsOk;
  }

  lemma ClosePreVoteCounts(members: seq<Id>, s: State, a: Action)
    requires Inv(members, s) && Enabled(members, s, a) && a.ClosePreVote?
    ensures PhasesOk(members, Do(members, s, a)) && WinsOk(members, Do(members, s, a))
  {
    hide VotesRemembered, TermsSent;
  }

  lemma CloseVoteVotes(members: seq<Id>, s: State, a: Action)
    requires Inv(members, s) && Enabled(members, s, a) && a.CloseVote?
    ensures VotesOk(members, Do(members, s, a))
  {
    hide PhasesOk, WinsOk;
  }

  lemma CloseVoteCounts(members: seq<Id>, s: State, a: Action)
    requires Inv(members, s) && Enabled(members, s, a) && a.CloseVote?
    ensures PhasesOk(members, Do(members, s, a)) && WinsOk(members, Do(members, s, a))
  {
    hide VotesRemembered, TermsSent;
  }

  lemma PromoteInv(members: seq<Id>, s: State, a: Action)
    requires Inv(members, s) && Enabled(members, s, a) && a.Promote?
    ensures Inv(members, Do(members, s, a))
  {
    hide VotesRemembered, TermsSent, OneVotePerTerm, GrantsRecorded, Counted;
    NodeAdvances(s, a.m, BecomeLeader(s.nodes[a.m], a.m));
  }

  lemma DiscoveryInv(members: seq<Id>, s: State, a: Action)
    requires Inv(members, s) && Enabled(members, s, a) && (a.Advertise? || a.Discover?)
    ensures Inv(members, Do(members, s, a))
  {
  }

  lemma StepInv(members: seq<Id>, s: State, a: Action)
    requires Distinct(members) && Inv(members, s) && Enabled(members, s, a)
    ensures Inv(members, Do(members, s, a))
  {
    hide VotesOk, PhasesOk, WinsOk, Enabled, Do;
    match a
    case BeginPreVote(_) => BeginPreVoteInv(members, s, a);
    case Ask(_) => AskInv(members, s, a);
    case AnswerPreVote(_) => AnswerPreVoteInv(members, s, a);
    case AnswerVote(_) =>
      AnswerVoteVotes(members, s, a);
      AnswerVoteCounts(members, s, a);
    case HearPreVote(_, _) =>
      HearPreVoteVotes(members, s, a);
      HearPreVoteCounts(members, s, a);
    case HearVote(_, _) =>
      HearVoteVotes(members, s, a);
      HearVoteCounts(members, s, a);
    case Skip(_) => SkipInv(members, s, a);
    case ClosePreVote(_) =>
      ClosePreVoteVotes(members, s, a);
      ClosePreVoteCounts(members, s, a);
    case CloseVote(_) =>
      CloseVoteVotes(members, s, a);
      CloseVoteCounts(members, s, a);
    case Promote(_) => PromoteInv(members, s, a);
    case Advertise(_) => DiscoveryInv(members, s, a);
    case Discover(_, _) => DiscoveryInv(members, s, a);
  }

  lemma {:induction false} RunInv(members: seq<Id>, s: State, run: seq<Action>)
    requires Distinct(members) && Inv(members, s) && Legal(members, s, run)
    ensures Inv(members, After(members, s, run))
    decreases |run|
  {
    hide Inv, Enabled, Do;
    if run != [] {
      StepInv(members, s, run[0]);
      RunInv(members, Do(members, s, run[0]), run[1..]);
    }
  }

  // ---- election safety ----

  lemma {:induction false} MemberCount(members: seq<Id>)
    requires Distinct(members)
    ensures |MemberSet(members)| == |members|
  {
    if members != [] {
      var init, last := members[..|members| - 1], members[|members| - 1];
      MemberCount(init);
      assert members == init + [last];
      assert last !in MemberSet(init);
      assert MemberSet(members) == MemberSet(init) + {last};
    }
  }

  /** Two majorities of one member set share a member. */
  lemma QuorumsMeet(members: seq<Id>, a: set<Id>, b: set<Id>) returns (shared: Id)
    requires Distinct(members) && a <= MemberSet(members) && b <= MemberSet(members)
    requires HasQuorum(|a|, |members|) && HasQuorum(|b|, |members|)
    ensures shared in a && shared in b
  {
    MemberCount(members);
    if a * b == {} {
      SubsetSize(a + b, MemberSet(members));
    }
    shared :| shared in a * b;
  }

  lemma {:induction false} SubsetSize(a: set<Id>, b: set<Id>)
    requires a <= b
    ensures |a| <= |b|
  {
    assert b == a + (b - a);
  }

  lemma InvGivesSafety(members: seq<Id>, s: State, v: Win, w: Win)
    requires Distinct(members) && Inv(members, s)
    requires v in s.wins && w in s.wins && v.term == w.term
    ensures v.candidate == w.candidate
  {
    var shared := QuorumsMeet(members, v.voters, w.voters);
    assert Ballot(shared, v.term, v.candidate) in s.cast;
    assert Ballot(shared, w.term, w.candidate) in s.cast;
  }

  /**
   Election safety: over every run of the cluster, no two members ever collect
   a quorum for the same term.
   */
  lemma ElectionSafety(members: seq<Id>, primary: Option<Id>, run: seq<Action>, v: Win, w: Win)
    requires Distinct(members) && Legal(members, Init(members, primary), run)
    requires v in After(members, Init(members, primary), run).wins
    requires w in After(members, Init(members, primary), run).wins
    requires v.term == w.term
    ensures v.candidate == w.candidate
  {
    InitInv(members, primary);
    RunInv(members, Init(members, primary), run);
    InvGivesSafety(members, After(members, Init(members, primary), run), v, w);
  }

  // ---- terms ----

  /** `a` opens a candidacy backed by a pre-vote quorum. */
  predicate OpensCandidacy(members: seq<Id>, s: State, a: Action) {
    && Enabled(members, s, a) && a.ClosePreVote?
    && HasQuorum(s.phases[a.m].preVotes, |members|)
  }

  /** Some member has reached `term`. */
  predicate Reached(s: State, term: u64) {
    exists k :: k in s.nodes && term <= s.nodes[k].term
  }

  /** Only a candidacy won in pre-vote raises the cluster's largest term. */
  lemma OnlyCandidacyRaisesMaxTerm(members: seq<Id>, s: State, a: Action, m: Id)
    requires Inv(members, s) && Enabled(members, s, a) && m in s.nodes
    requires !OpensCandidacy(members, s, a)
    ensures m in Do(members, s, a).nodes && Reached(s, Do(members, s, a).nodes[m].term)
  {
    var s' := Do(members, s, a);
    if s'.nodes[m].term > s.nodes[m].term {
      assert a.AnswerVote? || a.HearPreVote? || a.HearVote? || a.Discover?;
      assert s'.nodes[m].term <= s.nodes[a.msg.from].term;
    }
  }

  /** The pre-vote count behind a candidacy is a real majority of members. */
  lemma CandidacyHasMajority(members: seq<Id>, s: State, a: Action)
    requires Inv(members, s) && OpensCandidacy(members, s, a)
    ensures var backers := s.phases[a.m].backers;
            backers <= MemberSet(members) && HasQuorum(|backers|, |members|)
  {
    var p := s.phases[a.m];
    assert Counted(members, a.m, p.next, p.preVotes, p.backers);
  }

  // ---- a partitioned minority ----

  /** What reaches a member of `side` through `a` was sent from within `side`. */
  predicate StaysInside(side: set<Id>, a: Action) {
    match a
    case AnswerPreVote(msg) => msg.PreVoteReq? && msg.to in side ==> msg.from in side
    case AnswerVote(msg) => msg.VoteReq? && msg.to in side ==> msg.from in side
    case HearPreVote(m, msg) => m in side ==> msg.from in side
    case HearVote(m, msg) => m in side ==> msg.from in side
    case Discover(m, msg) => m in side ==> msg.from in side
    case _ => true
  }

  /** Nobody in `side` is a candidate or passed term `bound`; its polls count only `side`. */
  ghost predicate Quiet(side: set<Id>, s: State, bound: u64) {
    forall m :: m in side ==>
      && m in s.nodes && m in s.phases
      && s.nodes[m].term <= bound
      && !s.phases[m].Voting?
      && (s.phases[m].PreVoting? ==> s.phases[m].backers <= side)
  }

  /** The quorums collected by members of `side`. */
  function WinsOf(side: set<Id>, s: State): set<Win> {
    set w | w in s.wins && w.candidate in side
  }

  /** Inside a quiet side no term moves past the bound. */
  lemma PartitionTerms(members: seq<Id>, side: set<Id>, s: State, a: Action, bound: u64, m: Id)
    requires Inv(members, s) && Enabled(members, s, a)
    requires Quiet(side, s, bound) && StaysInside(side, a) && m in side
    requires !OpensCandidacy(members, s, a) || a.m !in side
    ensures m in Do(members, s, a).nodes && Do(members, s, a).nodes[m].term <= bound
  {
    hide Counted, PhasesOk, WinsOk, VotesRemembered;
    var s' := Do(members, s, a);
    if s'.nodes[m].term > s.nodes[m].term {
      assert a.AnswerVote? || a.HearPreVote? || a.HearVote? || a.Discover?;
      assert s'.nodes[m].term <= s.nodes[a.msg.from].term;
    }
  }

  /** A minority's polls never reach a quorum. */
  lemma PartitionPolls(members: seq<Id>, side: set<Id>, s: State, a: Action, bound: u64)
    requires Inv(members, s) && Quiet(side, s, bound) && !HasQuorum(|side|, |members|)
    requires OpensCandidacy(members, s, a)
    ensures a.m !in side
  {
    var p := s.phases[a.m];
    assert Counted(members, a.m, p.next, p.preVotes, p.backers);
    if a.m in side {
      SubsetSize(p.backers, side);
    }
  }

  lemma PartitionPhases(members: seq<Id>, side: set<Id>, s: State, a: Action, bound: u64, m: Id)
    requires Enabled(members, s, a)
    requires Quiet(side, s, bound) && StaysInside(side, a) && m in side
    requires !OpensCandidacy(members, s, a) || a.m !in side
    ensures m in Do(members, s, a).phases
    ensures var p := Do(members, s, a).phases[m];
            !p.Voting? && (p.PreVoting? ==> p.backers <= side)
  {
    hide ConsiderVote, ObserveTerm;
  }

  lemma PartitionStep(members: seq<Id>, side: set<Id>, s: State, a: Action, bound: u64)
    requires Inv(members, s) && Enabled(members, s, a)
    requires !HasQuorum(|side|, |members|) && Quiet(side, s, bound) && StaysInside(side, a)
    ensures Quiet(side, Do(members, s, a), bound)
    ensures WinsOf(side, Do(members, s, a)) == WinsOf(side, s)
  {
    if OpensCandidacy(members, s, a) {
      PartitionPolls(members, side, s, a, bound);
    }
    PartitionWins(members, side, s, a, bound);
    hide Inv, Do, Enabled;
    forall m | m in side
      ensures m in Do(members, s, a).nodes && Do(members, s, a).nodes[m].term <= bound
      ensures m in Do(members, s, a).phases
      ensures var p := Do(members, s, a).phases[m];
              !p.Voting? && (p.PreVoting? ==> p.backers <= side)
    {
      PartitionTerms(members, side, s, a, bound, m);
      PartitionPhases(members, side, s, a, bound, m);
    }
  }

  lemma PartitionWins(members: seq<Id>, side: set<Id>, s: State, a: Action, bound: u64)
    requires Enabled(members, s, a) && Quiet(side, s, bound)
    ensures WinsOf(side, Do(members, s, a)) == WinsOf(side, s)
  {
    hide ConsiderVote, ObserveTerm;
  }

  ghost predicate AllInside(side: set<Id>, run: seq<Action>) {
    forall i :: 0 <= i < |run| ==> StaysInside(side, run[i])
  }

  /**
   A minority cut off from the rest never inflates a term and never elects,
   however long it keeps polling.
   */
  lemma {:induction false} PartitionedMinority(
    members: seq<Id>, side: set<Id>, s: State, run: seq<Action>, bound: u64)
    requires Distinct(members) && Inv(members, s) && Legal(members, s, run)
    requires !HasQuorum(|side|, |members|) && Quiet(side, s, bound) && AllInside(side, run)
    ensures Quiet(side, After(members, s, run), bound)
    ensures WinsOf(side, After(members, s, run)) == WinsOf(side, s)
    decreases |run|
  {
    hide Inv, Enabled, Do, Quiet, WinsOf;
    if run != [] {
      StepInv(members, s, run[0]);
      PartitionStep(members, side, s, run[0], bound);
      PartitionedMinority(members, side, Do(members, s, run[0]), run[1..], bound);
    }
  }

  // ---- leaders ----

  /** `m` leads because a quorum chose it for the term it is in, or as the first primary. */
  ghost predicate BackedLeader(s: State, m: Id, primary: Option<Id>)
    requires m in s.nodes
  {
    s.nodes[m].isLeader ==>
      || (s.nodes[m].term == 0 && primary == Some(m))
      || exists w :: w in s.wins && w.candidate == m && w.term == s.nodes[m].term
  }

  ghost predicate LeadersBacked(s: State, primary: Option<Id>) {
    forall m :: m in s.nodes ==> BackedLeader(s, m, primary)
  }

  /** Where every leader is backed, a term has at most one. */
  lemma OneLeaderPerTerm(members: seq<Id>, s: State, primary: Option<Id>, a: Id, b: Id)
    requires Distinct(members) && Inv(members, s) && LeadersBacked(s, primary)
    requires a in s.nodes && b in s.nodes
    requires s.nodes[a].isLeader && s.nodes[b].isLeader && s.nodes[a].term == s.nodes[b].term
    ensures a == b
  {
    assert BackedLeader(s, a, primary) && BackedLeader(s, b, primary);
    assert forall w :: w in s.wins ==> WinOk(members, s, w);
    if s.nodes[a].term > 0 {
      var v :| v in s.wins && v.candidate == a && v.term == s.nodes[a].term;
      var w :| w in s.wins && w.candidate == b && w.term == s.nodes[b].term;
      InvGivesSafety(members, s, v, w);
    }
  }

  /** Nothing but a promotion can leave a leader unbacked. */
  lemma OtherStepsKeepBacking(members: seq<Id>, s: State, primary: Option<Id>, a: Action)
    requires Enabled(members, s, a) && LeadersBacked(s, primary) && !a.Promote?
    ensures LeadersBacked(Do(members, s, a), primary)
  {
    var s' := Do(members, s, a);
    forall m | m in s'.nodes
      ensures BackedLeader(s', m, primary)
    {
      assert m in s.nodes && BackedLeader(s, m, primary);
    }
  }

  /**
   A promotion leaves every leader backed exactly when the candidate is still in
   the term it won: vote counting may have raised it since.
   */
  lemma PromotionBackedIff(members: seq<Id>, s: State, primary: Option<Id>, a: Action)
    requires Inv(members, s) && Enabled(members, s, a) && a.Promote? && LeadersBacked(s, primary)
    ensures LeadersBacked(Do(members, s, a), primary) <==> s.nodes[a.m].term == s.phases[a.m].term
  {
    hide TermsSent, PhasesOk, VotesRemembered;
    var s' := Do(members, s, a);
    var p := s.phases[a.m];
    assert Win(p.term, a.m, p.voters) in s.wins;
    if s.nodes[a.m].term == p.term {
      forall m | m in s'.nodes
        ensures BackedLeader(s', m, primary)
      {
        assert BackedLeader(s, m, primary);
      }
    } else {
      assert forall v :: v in s.wins ==> WinOk(members, s, v);
      assert !BackedLeader(s', a.m, primary);
    }
  }

  /** Whenever a member is promoted it is still in the term it won. */
  ghost predicate PromptPromotions(members: seq<Id>, s: State, run: seq<Action>)
    requires Legal(members, s, run)
    decreases |run|
  {
    run != [] ==>
      && (run[0].Promote? ==> s.nodes[run[0].m].term == s.phases[run[0].m].term)
      && PromptPromotions(members, Do(members, s, run[0]), run[1..])
  }

  lemma {:induction false} PromptRunsKeepBacking(
    members: seq<Id>, s: State, primary: Option<Id>, run: seq<Action>)
    requires Distinct(members) && Inv(members, s) && LeadersBacked(s, primary)
    requires Legal(members, s, run) && PromptPromotions(members, s, run)
    ensures LeadersBacked(After(members, s, run), primary)
    decreases |run|
  {
    hide Inv, Enabled, Do, LeadersBacked;
    if run != [] {
      StepInv(members, s, run[0]);
      if run[0].Promote? {
        PromotionBackedIff(members, s, primary, run[0]);
      } else {
        OtherStepsKeepBacking(members, s, primary, run[0]);
      }
      PromptRunsKeepBacking(members, Do(members, s, run[0]), primary, run[1..]);
    }
  }

  /** In a run whose promotions are prompt, no two leaders ever share a term. */
  lemma AtMostOneLeader(members: seq<Id>, primary: Option<Id>, run: seq<Action>, a: Id, b: Id)
    requires Distinct(members) && Legal(members, Init(members, primary), run)
    requires PromptPromotions(members, Init(members, primary), run)
    requires var s := After(members, Init(members, primary), run);
             && a in s.nodes && b in s.nodes
             && s.nodes[a].isLeader && s.nodes[b].isLeader && s.nodes[a].term == s.nodes[b].term
    ensures a == b
  {
    var s0 := Init(members, primary);
    InitInv(members, primary);
    RunInv(members, s0, run);
    PromptRunsKeepBacking(members, s0, primary, run);
    OneLeaderPerTerm(members, After(members, s0, run), primary, a, b);
  }
}
