/** One node's election state: terms, the per-term vote, and the leader view. */
module Election {
  import opened Common

  /** A member's URL. */
  type Id = string

  datatype Node = Node(term: u64, votedFor: Option<Id>, isLeader: bool, leader: Option<Id>)

  datatype VoteReply = VoteReply(term: u64, granted: bool)

  datatype Voted = Voted(node: Node, reply: VoteReply)

  const DEFAULT_NODE := Node(0, None, false, None)

  /** A higher term makes the node a follower of it, with a fresh vote. */
  function ObserveTerm(n: Node, term: u64): Node {
    if term > n.term then Node(term, None, false, None) else n
  }

  /** The Raft vote rule. */
  function ConsiderVote(n: Node, term: u64, candidate: Id): Voted {
    if term < n.term then Voted(n, VoteReply(n.term, false))
    else
      var m := ObserveTerm(n, term);
      if m.votedFor.None? then Voted(m.(votedFor := Some(candidate)), VoteReply(m.term, true))
      else Voted(m, VoteReply(m.term, m.votedFor.value == candidate))
  }

  /** The non-binding poll: it has no new state to return. */
  function ConsiderPreVote(n: Node, term: u64): VoteReply {
    VoteReply(n.term, term >= n.term && !n.isLeader)
  }

  function StartCandidacy(n: Node, self: Id): Node
    requires n.term < U64_MAX
  {
    Node(n.term + 1, Some(self), false, None)
  }

  function BecomeLeader(n: Node, self: Id): Node {
    n.(isLeader := true, leader := Some(self))
  }

  /** Adopts a leader of a term at least ours; the recorded vote is kept. */
  function ObserveLeader(n: Node, term: u64, leader: Id): Node {
    if term >= n.term then n.(term := term, leader := Some(leader), isLeader := false) else n
  }

  function Quorum(members: nat): nat {
    members / 2 + 1
  }

  predicate HasQuorum(votes: nat, members: nat) {
    members > 0 && votes >= Quorum(members)
  }

  predicate Distinct(members: seq<Id>) {
    forall i, j :: 0 <= i < j < |members| ==> members[i] != members[j]
  }

  /** The peers whose replies came back granted. */
  function Granters(members: seq<Id>, self: Id, replies: map<Id, VoteReply>): set<Id> {
    set m | m in members && m != self && m in replies && replies[m].granted
  }

  /** The highest term among the replies that refused, 0 if none did. */
  function HighestRefusal(members: seq<Id>, self: Id, replies: map<Id, VoteReply>): (t: u64)
    ensures forall m :: m in members && m != self && m in replies && !replies[m].granted ==> replies[m].term <= t
    ensures t > 0 ==> exists m :: m in members && m != self && m in replies && !replies[m].granted && replies[m].term == t
  {
    if members == [] then 0
    else
      var rest := HighestRefusal(members[..|members| - 1], self, replies);
      var m := members[|members| - 1];
      assert members == members[..|members| - 1] + [m];
      if m != self && m in replies && !replies[m].granted && replies[m].term > rest then replies[m].term else rest
  }

  /** The election state shared by the RPC handlers and the candidate. */
  class ElectionState {
    var currentTerm: u64
    var votedFor: Option<Id>
    var isLeader: bool
    var leader: Option<Id>

    function View(): Node
      reads this
    {
      Node(currentTerm, votedFor, isLeader, leader)
    }

    constructor ()
      ensures View() == DEFAULT_NODE
    {
      currentTerm, votedFor, isLeader, leader := 0, None, false, None;
    }

    method HandleVote(term: u64, candidate: Id) returns (reply: VoteReply)
      modifies this
      ensures Voted(View(), reply) == ConsiderVote(old(View()), term, candidate)
    {
      if term < currentTerm {
        return VoteReply(currentTerm, false);
      }
      if term > currentTerm {
        currentTerm := term;
        votedFor := None;
        isLeader := false;
        leader := None;
      }
      var granted := true;
      match votedFor {
        case None => votedFor := Some(candidate);
        case Some(c) => granted := c == candidate;
      }
      reply := VoteReply(currentTerm, granted);
    }

    method HandlePreVote(term: u64) returns (reply: VoteReply)
      ensures reply == ConsiderPreVote(View(), term)
    {
      var granted := term >= currentTerm && !isLeader;
      reply := VoteReply(currentTerm, granted);
    }

    method BeginCandidacy(self: Id) returns (term: u64)
      requires currentTerm < U64_MAX
      modifies this
      ensures View() == StartCandidacy(old(View()), self) && term == currentTerm
    {
      currentTerm := currentTerm + 1;
      votedFor := Some(self);
      isLeader := false;
      leader := None;
      term := currentTerm;
    }

    method SeeTerm(term: u64)
      modifies this
      ensures View() == ObserveTerm(old(View()), term)
    {
      if term > currentTerm {
        currentTerm := term;
        votedFor := None;
        isLeader := false;
        leader := None;
      }
    }

    method Promote(self: Id)
      modifies this
      ensures View() == BecomeLeader(old(View()), self)
    {
      isLeader := true;
      leader := Some(self);
    }

    method SeeLeader(term: u64, url: Id)
      modifies this
      ensures View() == ObserveLeader(old(View()), term, url)
    {
      if term >= currentTerm {
        currentTerm := term;
        leader := Some(url);
        isLeader := false;
      }
    }

    /**
     One counting loop of `elect`: a granted reply adds a vote, a refusal is a
     term to observe, a missing reply is a failed call.
     */
    method Tally(members: seq<Id>, self: Id, replies: map<Id, VoteReply>) returns (votes: nat)
      requires Distinct(members)
      modifies this
      ensures votes == 1 + |Granters(members, self, replies)|
      ensures View() == ObserveTerm(old(View()), HighestRefusal(members, self, replies))
    {
      votes := 1;
      for i := 0 to |members|
        invariant votes == 1 + |Granters(members[..i], self, replies)|
        invariant View() == ObserveTerm(old(View()), HighestRefusal(members[..i], self, replies))
      {
        var m := members[i];
        GrantersGrow(members, i, self, replies);
        assert members[..i + 1][..i] == members[..i];
        if m != self && m in replies {
          if replies[m].granted {
            votes := votes + 1;
          } else {
            SeeTerm(replies[m].term);
          }
        }
      }
      assert members[..|members|] == members;
    }

    /** `elect` undisturbed: a quorum of pre-votes, then a quorum of votes. */
    method Elect(members: seq<Id>, self: Id, polls: map<Id, VoteReply>, replies: map<Id, VoteReply>)
      returns (won: bool)
      requires Distinct(members)
      requires forall m :: m in polls ==> polls[m].term < U64_MAX
      requires currentTerm < U64_MAX
      modifies this
      ensures var polled := HasQuorum(1 + |Granters(members, self, polls)|, |members|);
              && (won <==> polled && HasQuorum(1 + |Granters(members, self, replies)|, |members|))
              && var seen := ObserveTerm(old(View()), HighestRefusal(members, self, polls));
                 && seen.term < U64_MAX
                 && View() == if polled
                              then ObserveTerm(StartCandidacy(seen, self), HighestRefusal(members, self, replies))
                              else seen
    {
      if |members| == 0 {
        return false;
      }
      var preVotes := Tally(members, self, polls);
      if !HasQuorum(preVotes, |members|) {
        return false;
      }
      var term := BeginCandidacy(self);
      var votes := Tally(members, self, replies);
      won := HasQuorum(votes, |members|);
    }
  }

  lemma GrantersGrow(members: seq<Id>, i: nat, self: Id, replies: map<Id, VoteReply>)
    requires Distinct(members) && i < |members|
    ensures var m := members[i];
            var before, after := Granters(members[..i], self, replies), Granters(members[..i + 1], self, replies);
            |after| == |before| + if m != self && m in replies && replies[m].granted then 1 else 0
  {
    var m := members[i];
    var before, after := Granters(members[..i], self, replies), Granters(members[..i + 1], self, replies);
    assert members[..i + 1] == members[..i] + [m];
    if m != self && m in replies && replies[m].granted {
      assert m !in before;
      assert after == before + {m};
    } else {
      assert after == before;
    }
  }
}
