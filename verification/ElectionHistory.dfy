/** What granted polls and named leaders mean, over every run of the cluster. */
module ElectionHistory {
  import opened Common
  import opened Election
  import opened ElectionProtocol

  // ---- granted polls ----

  ghost predicate Endorsed(s: State, voter: Id, poll: u64, candidate: Id) {
    exists e :: e in s.endorsed && e.voter == voter && e.poll == poll && e.candidate == candidate
  }

  /** Only members that lead nothing and are not past the polled term endorse. */
  ghost predicate FreeEndorsers(s: State) {
    forall e :: e in s.endorsed ==> !e.wasLeading && e.atTerm <= e.poll
  }

  ghost predicate GrantsEndorsed(s: State) {
    forall r :: r in s.net && r.PreVoteRep? && r.reply.granted ==> Endorsed(s, r.from, r.asked, r.to)
  }

  ghost predicate BackersEndorsed(s: State) {
    forall m, v :: m in s.phases && s.phases[m].PreVoting? && v in s.phases[m].backers ==>
      v == m || Endorsed(s, v, s.phases[m].poll, m)
  }

  ghost predicate PollsOk(s: State) {
    FreeEndorsers(s) && GrantsEndorsed(s) && BackersEndorsed(s)
  }

  lemma EndorsedGrows(s: State, s': State, voter: Id, poll: u64, candidate: Id)
    requires s.endorsed <= s'.endorsed && Endorsed(s, voter, poll, candidate)
    ensures Endorsed(s', voter, poll, candidate)
  {
    var e :| e in s.endorsed && e.voter == voter && e.poll == poll && e.candidate == candidate;
    assert e in s'.endorsed;
  }

  lemma AnswerKeepsPolls(members: seq<Id>, s: State, a: Action)
    requires PollsOk(s) && Enabled(members, s, a) && a.AnswerPreVote?
    ensures PollsOk(Do(members, s, a))
  {
    hide Endorsed;
    var s', n := Do(members, s, a), s.nodes[a.msg.to];
    if ConsiderPreVote(n, a.msg.term).granted {
      var e := Endorsement(a.msg.to, a.msg.term, a.msg.from, n.isLeader, n.term);
      assert Endorsed(s', e.voter, e.poll, e.candidate) by {
        EndorsementShows(s', e);
      }
    }
    forall r | r in s'.net && r.PreVoteRep? && r.reply.granted
      ensures Endorsed(s', r.from, r.asked, r.to)
    {
      if r in s.net {
        EndorsedGrows(s, s', r.from, r.asked, r.to);
      }
    }
    forall m, v | m in s'.phases && s'.phases[m].PreVoting? && v in s'.phases[m].backers
      ensures v == m || Endorsed(s', v, s'.phases[m].poll, m)
    {
      if v != m {
        EndorsedGrows(s, s', v, s.phases[m].poll, m);
      }
    }
  }

  lemma EndorsementShows(s: State, e: Endorsement)
    requires e in s.endorsed
    ensures Endorsed(s, e.voter, e.poll, e.candidate)
  {
  }

  /** Endorsements read the history alone. */
  lemma EndorsedFrame(s: State, s': State)
    requires s'.endorsed == s.endorsed
    ensures forall v, p, c :: Endorsed(s', v, p, c) == Endorsed(s, v, p, c)
    ensures FreeEndorsers(s') == FreeEndorsers(s)
  {
  }

  lemma OthersKeepPolls(members: seq<Id>, s: State, a: Action)
    requires PollsOk(s) && Enabled(members, s, a) && !a.AnswerPreVote?
    ensures PollsOk(Do(members, s, a))
  {
    hide ConsiderVote, ObserveTerm, ObserveLeader, HasQuorum, Endorsed, FreeEndorsers;
    EndorsedFrame(s, Do(members, s, a));
  }

  lemma {:induction false} RunKeepsPolls(members: seq<Id>, s: State, run: seq<Action>)
    requires PollsOk(s) && Legal(members, s, run)
    ensures PollsOk(After(members, s, run))
    decreases |run|
  {
    hide PollsOk, Enabled, Do;
    if run != [] {
      if run[0].AnswerPreVote? {
        AnswerKeepsPolls(members, s, run[0]);
      } else {
        OthersKeepPolls(members, s, run[0]);
      }
      RunKeepsPolls(members, Do(members, s, run[0]), run[1..]);
    }
  }

  /** `voter` granted this poll while not leading and at or below its term. */
  ghost predicate FreelyEndorsed(s: State, voter: Id, poll: u64, candidate: Id) {
    exists e :: e in s.endorsed && e.voter == voter && e.poll == poll && e.candidate == candidate
                && !e.wasLeading && e.atTerm <= poll
  }

  /**
   Over every run: whoever backs a candidacy, the candidate aside, answered its
   poll as a member that led nothing and was not past the polled term.
   */
  lemma BackersWereFree(members: seq<Id>, primary: Option<Id>, run: seq<Action>, a: Action, voter: Id)
    requires Legal(members, Init(members, primary), run)
    requires var s := After(members, Init(members, primary), run);
             OpensCandidacy(members, s, a) && voter in s.phases[a.m].backers && voter != a.m
    ensures var s := After(members, Init(members, primary), run);
            FreelyEndorsed(s, voter, s.phases[a.m].poll, a.m)
  {
    var s0 := Init(members, primary);
    RunKeepsPolls(members, s0, run);
    var s := After(members, s0, run);
    hide Legal, After;
    assert Endorsed(s, voter, s.phases[a.m].poll, a.m);
    var e :| e in s.endorsed && e.voter == voter && e.poll == s.phases[a.m].poll && e.candidate == a.m;
  }

  // ---- a live leader is not deposed behind its back ----

  ghost predicate LeadsThroughout(members: seq<Id>, s: State, run: seq<Action>, m: Id)
    requires Legal(members, s, run)
    decreases |run|
  {
    && m in s.nodes && s.nodes[m].isLeader
    && (run != [] ==> LeadsThroughout(members, Do(members, s, run[0]), run[1..], m))
  }

  ghost predicate NeverEndorsed(s: State, m: Id) {
    forall e :: e in s.endorsed ==> e.voter != m
  }

  lemma LeaderEndorsesNobody(members: seq<Id>, s: State, a: Action, m: Id)
    requires Enabled(members, s, a) && m in s.nodes && s.nodes[m].isLeader && NeverEndorsed(s, m)
    ensures NeverEndorsed(Do(members, s, a), m)
  {
    hide ConsiderVote, ObserveTerm, ObserveLeader, HasQuorum;
  }

  lemma {:induction false} LeadersEndorseNobody(members: seq<Id>, s: State, run: seq<Action>, m: Id)
    requires Legal(members, s, run) && LeadsThroughout(members, s, run, m) && NeverEndorsed(s, m)
    ensures NeverEndorsed(After(members, s, run), m)
    decreases |run|
  {
    hide Enabled, Do, NeverEndorsed;
    if run != [] {
      LeaderEndorsesNobody(members, s, run[0], m);
      LeadersEndorseNobody(members, Do(members, s, run[0]), run[1..], m);
    }
  }

  /** In a cluster of two, the other member opens no candidacy while the primary has led from the start. */
  lemma PrimaryOfTwoIsSafe(a: Id, b: Id, run: seq<Action>)
    requires a != b && Legal([a, b], Init([a, b], Some(b)), run)
    requires LeadsThroughout([a, b], Init([a, b], Some(b)), run, b)
    ensures !OpensCandidacy([a, b], After([a, b], Init([a, b], Some(b)), run), ClosePreVote(a))
  {
    var members, s0 := [a, b], Init([a, b], Some(b));
    var s := After(members, s0, run);
    LeadersEndorseNobody(members, s0, run, b);
    InitInv(members, Some(b));
    RunInv(members, s0, run);
    RunKeepsPolls(members, s0, run);
    hide Legal, After, LeadsThroughout, Init;
    if OpensCandidacy(members, s, ClosePreVote(a)) {
      CandidacyHasMajority(members, s, ClosePreVote(a));
      var backers := s.phases[a].backers;
      TwoOfTwo(a, b, backers);
    }
  }

  lemma TwoOfTwo(a: Id, b: Id, who: set<Id>)
    requires a != b && who <= MemberSet([a, b]) && HasQuorum(|who|, 2)
    ensures b in who
  {
    if b !in who {
      assert who <= {a};
      SubsetSize(who, {a});
    }
  }

  /** A quorum is the least majority: one vote fewer leaves room for a rival with as many. */
  lemma QuorumIsLeast(members: nat)
    requires members > 0
    ensures HasQuorum(members / 2 + 1, members) && 2 * (Quorum(members) - 1) <= members < 2 * Quorum(members)
  {
  }

  // ---- who is taken for leader ----

  /** `x` is the first primary or was promoted. */
  ghost predicate Led(s: State, x: Id, primary: Option<Id>) {
    primary == Some(x) || (x in s.phases && s.phases[x].Promoted?)
  }

  /** A leader names itself, and nobody names a member that never led. */
  ghost predicate LeadersNamed(s: State, primary: Option<Id>) {
    && (forall m :: m in s.nodes && s.nodes[m].isLeader ==> s.nodes[m].leader == Some(m))
    && (forall m :: m in s.nodes && s.nodes[m].leader.Some? ==> Led(s, s.nodes[m].leader.value, primary))
    && (forall r :: r in s.net && r.LeaderInfo? ==> Led(s, r.leader, primary))
  }

  /** Nobody stops having led. */
  lemma LedStays(members: seq<Id>, s: State, a: Action, primary: Option<Id>, x: Id)
    requires Enabled(members, s, a) && Led(s, x, primary)
    ensures Led(Do(members, s, a), x, primary)
  {
    hide HasQuorum, ConsiderPreVote, ConsiderVote, ObserveTerm, ObserveLeader;
  }

  lemma NewsKeepsNames(members: seq<Id>, s: State, primary: Option<Id>, a: Action)
    requires LeadersNamed(s, primary) && Enabled(members, s, a) && (a.Advertise? || a.Discover? || a.Promote?)
    ensures LeadersNamed(Do(members, s, a), primary)
  {
    forall x | Led(s, x, primary)
      ensures Led(Do(members, s, a), x, primary)
    {
      LedStays(members, s, a, primary, x);
    }
  }

  lemma BallotsKeepNames(members: seq<Id>, s: State, primary: Option<Id>, a: Action)
    requires LeadersNamed(s, primary) && Enabled(members, s, a) && !(a.Advertise? || a.Discover? || a.Promote?)
    ensures LeadersNamed(Do(members, s, a), primary)
  {
    hide HasQuorum, ConsiderPreVote, Led;
    forall x | Led(s, x, primary)
      ensures Led(Do(members, s, a), x, primary)
    {
      LedStays(members, s, a, primary, x);
    }
  }

  lemma StepKeepsNames(members: seq<Id>, s: State, primary: Option<Id>, a: Action)
    requires LeadersNamed(s, primary) && Enabled(members, s, a)
    ensures LeadersNamed(Do(members, s, a), primary)
  {
    hide LeadersNamed, Do, Enabled;
    if a.Advertise? || a.Discover? || a.Promote? {
      NewsKeepsNames(members, s, primary, a);
    } else {
      BallotsKeepNames(members, s, primary, a);
    }
  }

  /** Over every run, a leader takes itself for leader, and whoever is taken for leader has led. */
  lemma {:induction false} NamedLeadersLed(members: seq<Id>, s: State, primary: Option<Id>, run: seq<Action>)
    requires LeadersNamed(s, primary) && Legal(members, s, run)
    ensures LeadersNamed(After(members, s, run), primary)
    decreases |run|
  {
    hide LeadersNamed, Enabled, Do;
    if run != [] {
      StepKeepsNames(members, s, primary, run[0]);
      NamedLeadersLed(members, Do(members, s, run[0]), primary, run[1..]);
    }
  }

  lemma InitNames(members: seq<Id>, primary: Option<Id>)
    ensures LeadersNamed(Init(members, primary), primary)
  {
  }

  /** News of a leader at least as recent repoints a member and keeps its vote; older news is ignored. */
  lemma DiscoveryRepoints(members: seq<Id>, s: State, a: Action)
    requires Enabled(members, s, a) && a.Discover?
    ensures var n, n' := s.nodes[a.m], Do(members, s, a).nodes[a.m];
            if n.term <= a.msg.term then n' == Node(a.msg.term, n.votedFor, false, Some(a.msg.leader)) else n' == n
  {
  }

  /** Whatever makes a node's term rise also ends its leadership. */
  lemma HigherTermDemotes(members: seq<Id>, s: State, a: Action, m: Id)
    requires Enabled(members, s, a) && m in s.nodes
    requires m in Do(members, s, a).nodes && s.nodes[m].term < Do(members, s, a).nodes[m].term
    ensures !Do(members, s, a).nodes[m].isLeader
  {
    hide HasQuorum, ConsiderPreVote;
  }
}
