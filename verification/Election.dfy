/** Master election (fusion_multi_node/master/election.py).

    The node-local handlers are pure functions on ElectionState; the class MasterElection
    runs the same handlers on mutable fields and is proved equal to them. A World puts one
    such state per cluster member next to a network that may lose, delay, reorder and repeat
    messages, and the theorems at the end speak about every run of that system. */
module Election {
  import opened Options
  import opened Sequences

  type NodeId(==, !new)

  datatype Role = Follower | Candidate | Leader

  datatype ElectionState = ElectionState(
    role: Role,
    term: nat,
    votedFor: Option<NodeId>,
    votes: set<NodeId>,
    fencingToken: nat,
    leaderId: Option<NodeId>)

  datatype VoteRequest = VoteRequest(term: nat, candidateId: NodeId, candidatePriority: int)

  datatype VoteResponse = VoteResponse(term: nat, voteGranted: bool, voterId: NodeId)

  // ---------- node-local handlers ----------

  function Fresh(): ElectionState {
    ElectionState(Follower, 0, None, {}, 0, None)
  }

  /** Votes needed: the peers plus the node itself, halved, plus one. */
  function Majority(known: set<NodeId>): nat {
    (|known| + 1) / 2 + 1
  }

  function BecomeFollower(s: ElectionState): ElectionState {
    s.(role := Follower, votedFor := None, votes := {})
  }

  function BecomeLeader(s: ElectionState, me: NodeId): ElectionState {
    s.(role := Leader, leaderId := Some(me), fencingToken := s.fencingToken + 1)
  }

  function OpenPoll(s: ElectionState, me: NodeId): ElectionState {
    s.(role := Candidate, term := s.term + 1, votedFor := Some(me), votes := {me})
  }

  predicate Outvoted(s: ElectionState, resp: VoteResponse) {
    resp.term > s.term
  }

  /** An answer of a later term raises the term at once; the candidate steps down, with
      BecomeFollower, only when the new term is on disk, and may hear from others until then. */
  function OnVoteResponse(s: ElectionState, me: NodeId, known: set<NodeId>, resp: VoteResponse): ElectionState {
    if Outvoted(s, resp) then s.(term := resp.term)
    else if s.role != Candidate || !resp.voteGranted then s
    else
      var counted := s.(votes := s.votes + {resp.voterId});
      if |counted.votes| >= Majority(known) then BecomeLeader(counted, me) else counted
  }

  /** The check after the last peer was asked; it looks at the votes only, not at the role. */
  function ClosePoll(s: ElectionState, me: NodeId, known: set<NodeId>): ElectionState {
    if |s.votes| >= Majority(known) then BecomeLeader(s, me) else s
  }

  function OnVoteRequest(s: ElectionState, me: NodeId, priority: int, req: VoteRequest): (ElectionState, VoteResponse) {
    var s1 := if req.term > s.term then BecomeFollower(s.(term := req.term)) else s;
    var granted :=
      && req.term >= s1.term
      && (s1.votedFor == None || s1.votedFor == Some(req.candidateId))
      && (req.candidatePriority >= priority || req.term > s1.term);
    var s2 := if granted then s1.(votedFor := Some(req.candidateId)) else s1;
    (s2, VoteResponse(s2.term, granted, me))
  }

  /** A follower keeps its vote even when the heartbeat moves its term forward. */
  function OnHeartbeat(s: ElectionState, leader: NodeId, term: nat): ElectionState {
    if term < s.term then s
    else
      var s1 := s.(term := term, leaderId := Some(leader));
      if s1.role != Follower then BecomeFollower(s1) else s1
  }

  /** Crash and reload of the persisted (term, voted_for, fencing_token). Term and token on disk are
      those in memory, because every step that changes them saves; the vote on disk may be older. */
  function Reload(s: ElectionState, diskVote: Option<NodeId>): ElectionState {
    ElectionState(Follower, s.term, diskVote, {}, s.fencingToken, None)
  }

  /** Why "one vote per term" is false: apart from the delayed step-down, a vote once cast changes
      inside its term exactly when a node that is not a follower receives a heartbeat of that
      same term. */
  lemma VoteChangesWithinTermIff(s: ElectionState, me: NodeId, priority: int, known: set<NodeId>,
                                 req: VoteRequest, resp: VoteResponse, leader: NodeId, hbTerm: nat)
    requires s.votedFor.Some?
    ensures OnVoteRequest(s, me, priority, req).0.term == s.term ==>
              OnVoteRequest(s, me, priority, req).0.votedFor == s.votedFor
    ensures OnVoteResponse(s, me, known, resp).term == s.term ==>
              OnVoteResponse(s, me, known, resp).votedFor == s.votedFor
    ensures ClosePoll(s, me, known).votedFor == s.votedFor
    ensures (OnHeartbeat(s, leader, hbTerm).term == s.term && OnHeartbeat(s, leader, hbTerm).votedFor != s.votedFor) <==>
            (hbTerm == s.term && s.role != Follower)
  {
  }

  /** A candidate that steps down on a same-term heartbeat does vote again in that term. */
  lemma SteppedDownCandidateVotesAgain(s: ElectionState, me: NodeId, priority: int, leader: NodeId, other: NodeId)
    requires other != me
    ensures var c := OpenPoll(s, me);
            var (s', resp) := OnVoteRequest(OnHeartbeat(c, leader, c.term), me, priority,
                                            VoteRequest(c.term, other, priority));
            c.votedFor == Some(me) && s'.votedFor == Some(other) && resp.voteGranted && resp.term == c.term
  {
  }

  // ---------- the object ----------

  class MasterElection {
    const nodeId: NodeId
    const priority: int
    var knownNodes: set<NodeId>
    var role: Role
    var currentTerm: nat
    var votedFor: Option<NodeId>
    var votesReceived: set<NodeId>
    var fencingToken: nat
    var leaderId: Option<NodeId>

    ghost function View(): ElectionState
      reads this
    {
      ElectionState(role, currentTerm, votedFor, votesReceived, fencingToken, leaderId)
    }

    /** `saved` is the persisted state, None when the file is missing or unreadable. */
    constructor (nodeId: NodeId, priority: int, knownNodes: set<NodeId>,
                 saved: Option<(nat, Option<NodeId>, nat)>)
      ensures this.nodeId == nodeId && this.priority == priority && this.knownNodes == knownNodes
      ensures saved == None ==> View() == Fresh()
      ensures forall s: ElectionState :: saved == Some((s.term, s.votedFor, s.fencingToken)) ==> View() == Reload(s, s.votedFor)
    {
      this.nodeId, this.priority, this.knownNodes := nodeId, priority, knownNodes;
      role, votesReceived, leaderId := Follower, {}, None;
      match saved
      case None => currentTerm, votedFor, fencingToken := 0, None, 0;
      case Some(p) => currentTerm, votedFor, fencingToken := p.0, p.1, p.2;
    }

    method StepDown()
      modifies this`role, this`votedFor, this`votesReceived
      ensures View() == BecomeFollower(old(View()))
    {
      role := Follower;
      votedFor := None;
      votesReceived := {};
    }

    method TakeOffice()
      modifies this`role, this`leaderId, this`fencingToken
      ensures View() == BecomeLeader(old(View()), nodeId)
    {
      role := Leader;
      leaderId := Some(nodeId);
      fencingToken := fencingToken + 1;
    }

    /** The locked section of _start_election. */
    method StartElection() returns (req: VoteRequest, peers: set<NodeId>, majority: nat)
      modifies this`role, this`currentTerm, this`votedFor, this`votesReceived
      ensures View() == OpenPoll(old(View()), nodeId)
      ensures req == VoteRequest(currentTerm, nodeId, priority)
      ensures peers == knownNodes - {nodeId} && majority == Majority(knownNodes)
    {
      currentTerm := currentTerm + 1;
      role := Candidate;
      votedFor := Some(nodeId);
      votesReceived := {nodeId};
      req := VoteRequest(currentTerm, nodeId, priority);
      peers := knownNodes - {nodeId};
      majority := (|knownNodes| + 1) / 2 + 1;
    }

    /** If the answer is of a later term, StepDown follows when the raised term is on disk. */
    method HandleVoteResponse(resp: VoteResponse) returns (stepDownDue: bool)
      modifies this
      ensures knownNodes == old(knownNodes)
      ensures View() == OnVoteResponse(old(View()), nodeId, knownNodes, resp)
      ensures stepDownDue == Outvoted(old(View()), resp)
    {
      if resp.term > currentTerm {
        currentTerm := resp.term;
        return true;
      }
      if role == Candidate && resp.voteGranted {
        votesReceived := votesReceived + {resp.voterId};
        var majority := (|knownNodes| + 1) / 2 + 1;
        if |votesReceived| >= majority {
          TakeOffice();
        }
      }
      return false;
    }

    /** The tail of _start_election, after every peer was asked. */
    method FinishElection(majority: nat)
      requires majority == Majority(knownNodes)
      modifies this`role, this`leaderId, this`fencingToken
      ensures View() == ClosePoll(old(View()), nodeId, knownNodes)
    {
      if |votesReceived| >= majority {
        TakeOffice();
      }
    }

    method HandleVoteRequest(req: VoteRequest) returns (resp: VoteResponse)
      modifies this`role, this`currentTerm, this`votedFor, this`votesReceived
      ensures (View(), resp) == OnVoteRequest(old(View()), nodeId, priority, req)
    {
      if req.term > currentTerm {
        currentTerm := req.term;
        StepDown();
      }
      var granted := false;
      if req.term >= currentTerm {
        if (votedFor == None || votedFor == Some(req.candidateId)) &&
           (req.candidatePriority >= priority || req.term > currentTerm) {
          granted := true;
          votedFor := Some(req.candidateId);
        }
      }
      resp := VoteResponse(currentTerm, granted, nodeId);
    }

    method ReceiveHeartbeat(leader: NodeId, term: nat)
      modifies this`role, this`currentTerm, this`votedFor, this`votesReceived, this`leaderId
      ensures View() == OnHeartbeat(old(View()), leader, term)
    {
      if term >= currentTerm {
        currentTerm := term;
        leaderId := Some(leader);
        if role != Follower {
          StepDown();
        }
      }
    }
  }

  // ---------- the cluster as a step system ----------

  /** Every node knows the whole cluster; whether it lists itself among its peers is left open. */
  datatype Cluster = Cluster(members: set<NodeId>, known: map<NodeId, set<NodeId>>, priority: map<NodeId, int>) {
    ghost predicate Valid() {
      && known.Keys == members && priority.Keys == members
      && forall n {:trigger known[n]} :: n in members ==> known[n] + {n} == members
    }
  }

  /** `diskVote[n]` is the vote n has on disk. `polls[n]` is the term of the vote loop n is running; the loops of the nodes in `stepping`
      wait for the disk before the node steps down. `grants` and `certs` are history:
      whom a node last voted for in a term, other than itself, and the votes held when a node
      became leader of a term. */
  datatype World = World(
    nodes: map<NodeId, ElectionState>,
    diskVote: map<NodeId, Option<NodeId>>,
    polls: map<NodeId, Option<nat>>,
    requests: set<VoteRequest>,
    responses: set<(NodeId, nat, VoteResponse)>,
    beats: set<(NodeId, nat)>,
    grants: map<(NodeId, nat), NodeId>,
    certs: map<(NodeId, nat), set<NodeId>>,
    stepping: set<NodeId>)

  datatype Event =
    | Timeout(n: NodeId)
    | DeliverRequest(req: VoteRequest, voter: NodeId)
    | DeliverResponse(cand: NodeId, pollTerm: nat, resp: VoteResponse)
    | StepDownNow(n: NodeId)
    | EndPoll(n: NodeId)
    | Broadcast(n: NodeId)
    | DeliverBeat(leader: NodeId, term: nat, to: NodeId)
    | Restart(n: NodeId)

  ghost predicate Shape(c: Cluster, w: World)
  {
    && w.nodes.Keys == c.members && w.diskVote.Keys == c.members && w.polls.Keys == c.members
    && c.known.Keys == c.members && c.priority.Keys == c.members
  }

  ghost predicate Enabled(c: Cluster, w: World, e: Event)
    requires Shape(c, w)
  {
    match e
    case Timeout(n) => n in c.members && w.nodes[n].role == Follower && w.polls[n] == None
    case DeliverRequest(req, v) => req in w.requests && v in c.members && v != req.candidateId
    case DeliverResponse(cand, t, resp) => (cand, t, resp) in w.responses && cand in c.members && w.polls[cand] == Some(t) && cand !in w.stepping
    case StepDownNow(n) => n in c.members && n in w.stepping
    case EndPoll(n) => n in c.members && w.polls[n].Some? && n !in w.stepping
    case Broadcast(n) => n in c.members && w.nodes[n].role == Leader && n !in w.stepping
    case DeliverBeat(l, t, v) => (l, t) in w.beats && v in c.members && v != l
    case Restart(n) => n in c.members
  }

  /** Replaces n's state, and saves it if the step does; a node that has just taken office leaves
      its votes on record. */
  ghost function Put(w: World, n: NodeId, s: ElectionState, saves: bool): World
    requires n in w.nodes
  {
    w.(nodes := w.nodes[n := s],
       diskVote := if saves then w.diskVote[n := s.votedFor] else w.diskVote,
       certs := if s.fencingToken > w.nodes[n].fencingToken then w.certs[(n, s.term) := s.votes] else w.certs)
  }

  ghost function Next(c: Cluster, w: World, e: Event): (w': World)
    requires Shape(c, w) && Enabled(c, w, e)
    ensures Shape(c, w')
  {
    match e
    case Timeout(n) =>
      var s := OpenPoll(w.nodes[n], n);
      Put(w, n, s, true).(polls := w.polls[n := Some(s.term)],
                          requests := w.requests + {VoteRequest(s.term, n, c.priority[n])})
    case DeliverRequest(req, v) =>
      var (s, resp) := OnVoteRequest(w.nodes[v], v, c.priority[v], req);
      Put(w, v, s, req.term > w.nodes[v].term || resp.voteGranted)
        .(responses := w.responses + {(req.candidateId, req.term, resp)},
          grants := if resp.voteGranted then w.grants[(v, req.term) := req.candidateId] else w.grants)
    case DeliverResponse(cand, t, resp) =>
      var s := OnVoteResponse(w.nodes[cand], cand, c.known[cand], resp);
      Put(w, cand, s, Outvoted(w.nodes[cand], resp) || s.fencingToken > w.nodes[cand].fencingToken)
        .(stepping := if Outvoted(w.nodes[cand], resp) then w.stepping + {cand} else w.stepping)
    case StepDownNow(n) =>
      Put(w, n, BecomeFollower(w.nodes[n]), false).(stepping := w.stepping - {n})
    case EndPoll(n) =>
      var s := ClosePoll(w.nodes[n], n, c.known[n]);
      Put(w, n, s, s.fencingToken > w.nodes[n].fencingToken).(polls := w.polls[n := None])
    case Broadcast(n) =>
      w.(beats := w.beats + {(n, w.nodes[n].term)})
    case DeliverBeat(l, t, v) =>
      Put(w, v, OnHeartbeat(w.nodes[v], l, t), t >= w.nodes[v].term)
    case Restart(n) =>
      Put(w, n, Reload(w.nodes[n], w.diskVote[n]), false).(polls := w.polls[n := None], stepping := w.stepping - {n})
  }

  ghost function Boot(c: Cluster): World {
    World(map n | n in c.members :: Fresh(), map n | n in c.members :: None, map n | n in c.members :: None, {}, {}, {}, map[], map[], {})
  }

  /** The world after a run: any sequence of events, one that is not enabled doing nothing. */
  ghost function After(c: Cluster, es: seq<Event>): (w: World)
    requires c.Valid()
    ensures Shape(c, w)
    decreases |es|
  {
    if es == [] then Boot(c)
    else
      var w := After(c, es[..|es| - 1]);
      var e := es[|es| - 1];
      if Enabled(c, w, e) then Next(c, w, e) else w
  }

  /** A node leads when it is in office and not about to step down. */
  ghost predicate Leads(c: Cluster, w: World, n: NodeId)
    requires Shape(c, w)
  {
    n in c.members && w.nodes[n].role == Leader && n !in w.stepping
  }

  /** The one thing that may go wrong: a node that waits for the disk before it steps down votes
      for a candidate. The step-down then erases that vote. */
  ghost predicate VotesWhileStepping(c: Cluster, w: World, e: Event)
    requires Shape(c, w) && Enabled(c, w, e)
  {
    e.DeliverRequest? && e.voter in w.stepping
    && OnVoteRequest(w.nodes[e.voter], e.voter, c.priority[e.voter], e.req).1.voteGranted
  }

  /** Runs in which that does not happen. */
  ghost predicate Undisturbed(c: Cluster, es: seq<Event>)
    requires c.Valid()
    decreases |es|
  {
    es == [] ||
    (var past, e := es[..|es| - 1], es[|es| - 1];
     Undisturbed(c, past) && (Enabled(c, After(c, past), e) ==> !VotesWhileStepping(c, After(c, past), e)))
  }

  // ---------- the inductive invariant ----------

  ghost predicate NodeInv(c: Cluster, w: World, n: NodeId)
    requires Shape(c, w) && n in c.members
  {
    var s := w.nodes[n];
    && (s.role == Follower ==> s.votes == {})
    && (s.role != Follower ==> s.votedFor == Some(n) && n in s.votes)
    && s.votes <= c.members
    && (w.diskVote[n] != s.votedFor ==> (n, s.term) !in w.grants && (n, s.term) !in w.certs)
    && (n in w.stepping ==> w.polls[n].Some? && (n, s.term) !in w.grants && (n, s.term) !in w.certs)
    && (n !in w.stepping ==>
          && (forall v :: v in s.votes && v != n ==> (v, s.term) in w.grants && w.grants[(v, s.term)] == n)
          && (s.role == Candidate && w.polls[n].Some? ==> w.polls[n].value == s.term)
          && (s.role == Leader ==> (n, s.term) in w.certs))
  }

  /** A vote given to another node stays in force for the rest of its term. */
  ghost predicate GrantInv(c: Cluster, w: World, v: NodeId, t: nat)
    requires Shape(c, w) && (v, t) in w.grants
  {
    var cand := w.grants[(v, t)];
    && v in c.members && cand in c.members && v != cand
    && t <= w.nodes[v].term
    && (t == w.nodes[v].term ==> w.nodes[v].votedFor == Some(cand))
    && c.priority[cand] >= c.priority[v]
  }

  /** Who led a term was elected by a majority, gave no vote of that term away, and cannot. */
  ghost predicate CertInv(c: Cluster, w: World, n: NodeId, t: nat)
    requires Shape(c, w) && (n, t) in w.certs
  {
    var q := w.certs[(n, t)];
    && n in c.members && q <= c.members && n in q && 2 * |q| > |c.members|
    && (forall v :: v in q && v != n ==> (v, t) in w.grants && w.grants[(v, t)] == n)
    && (n, t) !in w.grants
    && t <= w.nodes[n].term
    && (t == w.nodes[n].term ==> w.nodes[n].votedFor == Some(n))
  }

  ghost predicate NetInv(c: Cluster, w: World)
    requires Shape(c, w)
  {
    && (forall r :: r in w.requests ==> r.candidateId in c.members && r.candidatePriority == c.priority[r.candidateId])
    && (forall r :: r in w.responses && r.2.voteGranted ==>
          (r.2.voterId, r.1) in w.grants && w.grants[(r.2.voterId, r.1)] == r.0)
    && (forall b :: b in w.beats ==> b in w.certs)
  }

  ghost predicate Inv(c: Cluster, w: World)
  {
    && Shape(c, w)
    && (forall n {:trigger NodeInv(c, w, n)} :: n in c.members ==> NodeInv(c, w, n))
    && (forall v, t {:trigger GrantInv(c, w, v, t)} :: (v, t) in w.grants ==> GrantInv(c, w, v, t))
    && (forall n, t {:trigger CertInv(c, w, n, t)} :: (n, t) in w.certs ==> CertInv(c, w, n, t))
    && NetInv(c, w)
  }

  lemma MajorityIsMoreThanHalf(c: Cluster, n: NodeId)
    requires c.Valid() && n in c.members
    ensures 2 * Majority(c.known[n]) > |c.members|
  {
    var k := c.known[n];
    assert c.members == k + {n};
    assert |k + {n}| <= |k| + 1;
  }

  lemma MajoritiesMeet(all: set<NodeId>, a: set<NodeId>, b: set<NodeId>)
    requires a <= all && b <= all && 2 * |a| > |all| && 2 * |b| > |all|
    ensures a * b != {}
  {
    assert |a + b| == |a| + |b| - |a * b|;
    SubsetSize(a + b, all);
  }

  /** Two leaders of one term would share a voter, who could have served only one of them. */
  lemma OneLeaderPerTerm(c: Cluster, w: World, n: NodeId, m: NodeId, t: nat)
    requires Inv(c, w) && (n, t) in w.certs && (m, t) in w.certs
    ensures n == m
  {
    assert CertInv(c, w, n, t) && CertInv(c, w, m, t);
    MajoritiesMeet(c.members, w.certs[(n, t)], w.certs[(m, t)]);
    var v :| v in w.certs[(n, t)] * w.certs[(m, t)];
  }

  /** Only node n changed. Its vote may have changed inside the term only if nothing depended
      on it: no vote given away, no leadership won. */
  ghost predicate OnlyNodeChanged(c: Cluster, w: World, w': World, n: NodeId)
    requires Shape(c, w) && n in c.members
  {
    && Shape(c, w')
    && (forall k :: k in c.members && k != n ==> w'.nodes[k] == w.nodes[k] && w'.diskVote[k] == w.diskVote[k] && w'.polls[k] == w.polls[k] && (k in w'.stepping <==> k in w.stepping))
    && w.nodes[n].term <= w'.nodes[n].term
    && (w.nodes[n].term == w'.nodes[n].term && w.nodes[n].votedFor != w'.nodes[n].votedFor ==>
          (n, w.nodes[n].term) !in w.grants && (n, w.nodes[n].term) !in w.certs)
    && (forall g :: g in w.grants ==> g in w'.grants && w'.grants[g] == w.grants[g])
    && (forall g :: g in w'.grants && g !in w.grants ==> g == (n, w'.nodes[n].term) && g !in w.certs)
    && (forall k :: k in w.certs ==> k in w'.certs && (w'.certs[k] == w.certs[k] || k == (n, w'.nodes[n].term)))
    && (forall k :: k in w'.certs && k !in w.certs ==> k == (n, w'.nodes[n].term))
  }

  lemma NodesKeepInv(c: Cluster, w: World, w': World, n: NodeId)
    requires Inv(c, w) && n in c.members && OnlyNodeChanged(c, w, w', n) && NodeInv(c, w', n)
    ensures forall k {:trigger NodeInv(c, w', k)} :: k in c.members ==> NodeInv(c, w', k)
  {
    forall k | k in c.members ensures NodeInv(c, w', k) {
      assert NodeInv(c, w, k);
    }
  }

  lemma GrantsKeepInv(c: Cluster, w: World, w': World, n: NodeId)
    requires Inv(c, w) && n in c.members && OnlyNodeChanged(c, w, w', n)
    requires forall g :: g in w'.grants && g !in w.grants ==> GrantInv(c, w', g.0, g.1)
    ensures forall v, t {:trigger GrantInv(c, w', v, t)} :: (v, t) in w'.grants ==> GrantInv(c, w', v, t)
  {
    forall v, t | (v, t) in w'.grants ensures GrantInv(c, w', v, t) {
      if (v, t) in w.grants { assert GrantInv(c, w, v, t); }
    }
  }

  lemma CertsKeepInv(c: Cluster, w: World, w': World, n: NodeId)
    requires Inv(c, w) && n in c.members && OnlyNodeChanged(c, w, w', n)
    requires forall k :: k in w'.certs && (k in w.certs ==> w'.certs[k] != w.certs[k]) ==> CertInv(c, w', k.0, k.1)
    ensures forall k, t {:trigger CertInv(c, w', k, t)} :: (k, t) in w'.certs ==> CertInv(c, w', k, t)
  {
    forall k, t | (k, t) in w'.certs ensures CertInv(c, w', k, t) {
      if (k, t) in w.certs { assert CertInv(c, w, k, t); }
    }
  }

  lemma OthersKeepInv(c: Cluster, w: World, w': World, n: NodeId)
    requires Inv(c, w) && n in c.members && OnlyNodeChanged(c, w, w', n)
    requires NodeInv(c, w', n) && NetInv(c, w')
    requires forall g :: g in w'.grants && g !in w.grants ==> GrantInv(c, w', g.0, g.1)
    requires forall k :: k in w'.certs && (k in w.certs ==> w'.certs[k] != w.certs[k]) ==> CertInv(c, w', k.0, k.1)
    ensures Inv(c, w')
  {
    NodesKeepInv(c, w, w', n);
    GrantsKeepInv(c, w, w', n);
    CertsKeepInv(c, w, w', n);
  }

  lemma BootInv(c: Cluster)
    requires c.Valid()
    ensures Inv(c, Boot(c))
  {
  }

  lemma TimeoutInv(c: Cluster, w: World, n: NodeId)
    requires Inv(c, w) && Enabled(c, w, Timeout(n))
    ensures Inv(c, Next(c, w, Timeout(n)))
  {
    var w' := Next(c, w, Timeout(n));
    assert NodeInv(c, w, n);
    assert (n, w'.nodes[n].term) in w.certs ==> CertInv(c, w, n, w'.nodes[n].term);
    OthersKeepInv(c, w, w', n);
  }

  /** What a vote request does to the voter; a node in office or running refuses in its term. */
  lemma VoteRequestFacts(s: ElectionState, me: NodeId, priority: int, req: VoteRequest)
    requires s.role != Follower ==> s.votedFor == Some(me)
    requires req.candidateId != me
    ensures var (s', resp) := OnVoteRequest(s, me, priority, req);
            && resp.voterId == me && s'.term >= s.term && s'.fencingToken == s.fencingToken
            && (s'.term > s.term ==> s'.role == Follower && s'.votes == {})
            && (s'.term == s.term ==> s'.role == s.role && s'.votes == s.votes)
            && (resp.voteGranted ==> s'.term == req.term && s'.votedFor == Some(req.candidateId) && s'.role == Follower
                                     && req.candidatePriority >= priority)
            && (s'.term == s.term && s'.votedFor != s.votedFor ==> s.votedFor == None && s'.term == req.term)
            && (req.term <= s.term && !resp.voteGranted ==> s' == s)
  {
  }

  lemma DeliverRequestInv(c: Cluster, w: World, req: VoteRequest, v: NodeId)
    requires Inv(c, w) && Enabled(c, w, DeliverRequest(req, v)) && !VotesWhileStepping(c, w, DeliverRequest(req, v))
    ensures Inv(c, Next(c, w, DeliverRequest(req, v)))
  {
    var (s, resp) := OnVoteRequest(w.nodes[v], v, c.priority[v], req);
    assert NodeInv(c, w, v);
    VoteRequestFacts(w.nodes[v], v, c.priority[v], req);
    VoteRequestInv(c, w, req, v, s, resp, Next(c, w, DeliverRequest(req, v)));
  }

  /** A vote request as a step: the voter's new state, its answer, and the world after. */
  ghost predicate VoteStep(c: Cluster, w: World, req: VoteRequest, v: NodeId, s: ElectionState, resp: VoteResponse, w': World) {
    && Inv(c, w) && Enabled(c, w, DeliverRequest(req, v))
    && resp.voterId == v && s.term >= w.nodes[v].term && (v in w.stepping ==> !resp.voteGranted)
    && (s.term > w.nodes[v].term ==> s.role == Follower && s.votes == {})
    && (s.term == w.nodes[v].term ==> s.role == w.nodes[v].role && s.votes == w.nodes[v].votes)
    && (resp.voteGranted ==> s.term == req.term && s.votedFor == Some(req.candidateId) && s.role == Follower
                             && req.candidatePriority >= c.priority[v])
    && (s.term == w.nodes[v].term && s.votedFor != w.nodes[v].votedFor ==> w.nodes[v].votedFor == None)
    && (req.term <= w.nodes[v].term && !resp.voteGranted ==> s == w.nodes[v])
    && var saves := req.term > w.nodes[v].term || resp.voteGranted;
       w' == w.(nodes := w.nodes[v := s], diskVote := if saves then w.diskVote[v := s.votedFor] else w.diskVote,
                responses := w.responses + {(req.candidateId, req.term, resp)},
                grants := if resp.voteGranted then w.grants[(v, req.term) := req.candidateId] else w.grants)
  }

  lemma VoteChangesOnlyVoter(c: Cluster, w: World, req: VoteRequest, v: NodeId,
                             s: ElectionState, resp: VoteResponse, w': World)
    requires VoteStep(c, w, req, v, s, resp, w')
    ensures OnlyNodeChanged(c, w, w', v)
  {
    assert NodeInv(c, w, v);
    if (v, s.term) in w.grants { assert GrantInv(c, w, v, s.term); }
    if (v, s.term) in w.certs { assert CertInv(c, w, v, s.term); }
  }

  lemma VoteKeepsVoter(c: Cluster, w: World, req: VoteRequest, v: NodeId,
                       s: ElectionState, resp: VoteResponse, w': World)
    requires VoteStep(c, w, req, v, s, resp, w') && Shape(c, w')
    ensures NodeInv(c, w', v)
  {
    assert NodeInv(c, w, v);
    if (v, s.term) in w.grants { assert GrantInv(c, w, v, s.term); }
    if (v, s.term) in w.certs { assert CertInv(c, w, v, s.term); }
  }

  lemma VoteKeepsNet(c: Cluster, w: World, req: VoteRequest, v: NodeId,
                     s: ElectionState, resp: VoteResponse, w': World)
    requires VoteStep(c, w, req, v, s, resp, w') && Shape(c, w')
    ensures NetInv(c, w')
    ensures forall g :: g in w'.grants && g !in w.grants ==> GrantInv(c, w', g.0, g.1)
  {
    if (v, s.term) in w.grants { assert GrantInv(c, w, v, s.term); }
    assert NodeInv(c, w, v);
  }

  lemma VoteRequestInv(c: Cluster, w: World, req: VoteRequest, v: NodeId,
                       s: ElectionState, resp: VoteResponse, w': World)
    requires VoteStep(c, w, req, v, s, resp, w')
    ensures Inv(c, w')
  {
    VoteChangesOnlyVoter(c, w, req, v, s, resp, w');
    VoteKeepsVoter(c, w, req, v, s, resp, w');
    VoteKeepsNet(c, w, req, v, s, resp, w');
    OthersKeepInv(c, w, w', v);
  }

  /** Holding a majority of the votes of its term, a node takes office on record. */
  lemma OfficeInv(c: Cluster, w: World, w': World, n: NodeId, votes: set<NodeId>, s: ElectionState)
    requires c.Valid() && Inv(c, w) && n in c.members && n !in w.stepping && w.nodes[n].role != Follower
    requires n in votes && votes <= c.members && |votes| >= Majority(c.known[n])
    requires forall v :: v in votes && v != n ==> (v, s.term) in w.grants && w.grants[(v, s.term)] == n
    requires s.role == Leader && s.term == w.nodes[n].term && s.votedFor == w.nodes[n].votedFor && s.votes == votes
    requires w' == w.(nodes := w.nodes[n := s], diskVote := w.diskVote[n := s.votedFor], polls := w'.polls,
                      certs := w.certs[(n, s.term) := votes])
    requires w'.polls == w.polls || w'.polls == w.polls[n := None]
    ensures Inv(c, w')
  {
    assert NodeInv(c, w, n);
    MajorityIsMoreThanHalf(c, n);
    OfficeOnRecord(c, w, w', n, votes, s);
    assert NodeInv(c, w', n);
    OthersKeepInv(c, w, w', n);
  }

  lemma OfficeOnRecord(c: Cluster, w: World, w': World, n: NodeId, votes: set<NodeId>, s: ElectionState)
    requires Inv(c, w) && n in c.members && w.nodes[n].votedFor == Some(n)
    requires n in votes && votes <= c.members && 2 * |votes| > |c.members|
    requires forall v :: v in votes && v != n ==> (v, s.term) in w.grants && w.grants[(v, s.term)] == n
    requires s.term == w.nodes[n].term && s.votedFor == w.nodes[n].votedFor
    requires w' == w.(nodes := w.nodes[n := s], diskVote := w.diskVote[n := s.votedFor], polls := w'.polls,
                      certs := w.certs[(n, s.term) := votes])
    requires w'.polls == w.polls || w'.polls == w.polls[n := None]
    ensures OnlyNodeChanged(c, w, w', n) && CertInv(c, w', n, s.term) && NetInv(c, w')
    ensures w'.certs == w.certs[(n, s.term) := votes]
  {
    assert (n, s.term) in w.grants ==> GrantInv(c, w, n, s.term);
  }

  lemma CountedVoteInv(c: Cluster, w: World, w': World, n: NodeId, t: nat, resp: VoteResponse)
    requires Inv(c, w) && Enabled(c, w, DeliverResponse(n, t, resp)) && resp.voteGranted && w.nodes[n].role == Candidate
    requires w' == w.(nodes := w.nodes[n := w.nodes[n].(votes := w.nodes[n].votes + {resp.voterId})])
    ensures NodeInv(c, w', n) && Inv(c, w')
  {
    assert NodeInv(c, w, n);
    assert GrantInv(c, w, resp.voterId, t);
    assert NodeInv(c, w', n);
    assert OnlyNodeChanged(c, w, w', n);
    assert NetInv(c, w');
    OthersKeepInv(c, w, w', n);
  }

  /** Raising the term: nothing is on record for the node in its new term. */
  lemma OutvotedInv(c: Cluster, w: World, w': World, n: NodeId, t: nat)
    requires Inv(c, w) && n in c.members && w.polls[n].Some? && t > w.nodes[n].term
    requires w' == w.(nodes := w.nodes[n := w.nodes[n].(term := t)], diskVote := w.diskVote[n := w.nodes[n].votedFor],
                      stepping := w.stepping + {n})
    ensures Inv(c, w')
  {
    assert NodeInv(c, w, n);
    assert (n, t) in w.grants ==> GrantInv(c, w, n, t);
    assert (n, t) in w.certs ==> CertInv(c, w, n, t);
    OthersKeepInv(c, w, w', n);
  }

  lemma StepDownInv(c: Cluster, w: World, n: NodeId)
    requires Inv(c, w) && Enabled(c, w, StepDownNow(n))
    ensures Inv(c, Next(c, w, StepDownNow(n)))
  {
    assert NodeInv(c, w, n);
    OthersKeepInv(c, w, Next(c, w, StepDownNow(n)), n);
  }

  lemma PollClosedInv(c: Cluster, w: World, w': World, n: NodeId)
    requires Inv(c, w) && n in c.members && n !in w.stepping && w' == w.(polls := w.polls[n := None])
    ensures Inv(c, w')
  {
    assert NodeInv(c, w, n);
    assert OnlyNodeChanged(c, w, w', n) && NetInv(c, w');
    OthersKeepInv(c, w, w', n);
  }

  /** Taking office after the last vote was counted is one replacement of the node's state. */
  lemma PutOffice(w: World, n: NodeId, counted: ElectionState, s: ElectionState)
    requires n in w.nodes && s.fencingToken > w.nodes[n].fencingToken
    ensures var w1 := w.(nodes := w.nodes[n := counted]);
            Put(w, n, s, true) == w1.(nodes := w1.nodes[n := s], diskVote := w1.diskVote[n := s.votedFor],
                                      certs := w1.certs[(n, s.term) := s.votes])
  {
    assert w.nodes[n := counted][n := s] == w.nodes[n := s];
  }

  lemma MajorityReachedInv(c: Cluster, w: World, n: NodeId, t: nat, resp: VoteResponse, counted: ElectionState)
    requires c.Valid() && Inv(c, w) && Enabled(c, w, DeliverResponse(n, t, resp))
    requires resp.voteGranted && w.nodes[n].role == Candidate
    requires counted == w.nodes[n].(votes := w.nodes[n].votes + {resp.voterId}) && |counted.votes| >= Majority(c.known[n])
    ensures Inv(c, Put(w, n, BecomeLeader(counted, n), true))
  {
    var w1 := w.(nodes := w.nodes[n := counted]);
    CountedVoteInv(c, w, w1, n, t, resp);
    var s := BecomeLeader(counted, n);
    PutOffice(w, n, counted, s);
    OfficeInv(c, w1, Put(w, n, s, true), n, counted.votes, s);
  }

  lemma DeliverResponseInv(c: Cluster, w: World, n: NodeId, t: nat, resp: VoteResponse)
    requires c.Valid() && Inv(c, w) && Enabled(c, w, DeliverResponse(n, t, resp))
    ensures Inv(c, Next(c, w, DeliverResponse(n, t, resp)))
  {
    var s := w.nodes[n];
    var w' := Next(c, w, DeliverResponse(n, t, resp));
    if resp.term > s.term {
      OutvotedInv(c, w, w', n, resp.term);
    } else if s.role != Candidate || !resp.voteGranted {
      assert w'.nodes == w.nodes;
    } else {
      var counted := s.(votes := s.votes + {resp.voterId});
      if |counted.votes| >= Majority(c.known[n]) {
        MajorityReachedInv(c, w, n, t, resp, counted);
      } else {
        CountedVoteInv(c, w, w', n, t, resp);
      }
    }
  }

  lemma PollWonInv(c: Cluster, w: World, n: NodeId)
    requires c.Valid() && Inv(c, w) && Enabled(c, w, EndPoll(n)) && |w.nodes[n].votes| >= Majority(c.known[n])
    ensures Inv(c, Next(c, w, EndPoll(n)))
  {
    assert NodeInv(c, w, n);
    OfficeInv(c, w, Next(c, w, EndPoll(n)), n, w.nodes[n].votes, BecomeLeader(w.nodes[n], n));
  }

  lemma PollLostInv(c: Cluster, w: World, n: NodeId)
    requires Inv(c, w) && Enabled(c, w, EndPoll(n)) && |w.nodes[n].votes| < Majority(c.known[n])
    ensures Inv(c, Next(c, w, EndPoll(n)))
  {
    var w' := Next(c, w, EndPoll(n));
    assert w'.nodes == w.nodes;
    PollClosedInv(c, w, w', n);
  }

  lemma EndPollInv(c: Cluster, w: World, n: NodeId)
    requires c.Valid() && Inv(c, w) && Enabled(c, w, EndPoll(n))
    ensures Inv(c, Next(c, w, EndPoll(n)))
  {
    if |w.nodes[n].votes| >= Majority(c.known[n]) {
      PollWonInv(c, w, n);
    } else {
      PollLostInv(c, w, n);
    }
  }

  /** The step that erases a vote inside its term; it never reaches the leader of that term. */
  lemma DeliverBeatInv(c: Cluster, w: World, l: NodeId, t: nat, v: NodeId)
    requires Inv(c, w) && Enabled(c, w, DeliverBeat(l, t, v))
    ensures Inv(c, Next(c, w, DeliverBeat(l, t, v)))
  {
    var w' := Next(c, w, DeliverBeat(l, t, v));
    assert NodeInv(c, w, v);
    if (v, t) in w.certs { OneLeaderPerTerm(c, w, l, v, t); }
    if (v, t) in w.grants { assert GrantInv(c, w, v, t); }
    assert (l, t) in w.certs && CertInv(c, w, l, t);
    OthersKeepInv(c, w, w', v);
  }

  lemma RestartInv(c: Cluster, w: World, n: NodeId)
    requires Inv(c, w) && Enabled(c, w, Restart(n))
    ensures Inv(c, Next(c, w, Restart(n)))
  {
    assert NodeInv(c, w, n);
    OthersKeepInv(c, w, Next(c, w, Restart(n)), n);
  }

  lemma BroadcastInv(c: Cluster, w: World, n: NodeId)
    requires Inv(c, w) && Enabled(c, w, Broadcast(n))
    ensures Inv(c, Next(c, w, Broadcast(n)))
  {
    assert NodeInv(c, w, n);
    OthersKeepInv(c, w, Next(c, w, Broadcast(n)), n);
  }

  lemma NextInv(c: Cluster, w: World, e: Event)
    requires c.Valid() && Inv(c, w) && Enabled(c, w, e) && !VotesWhileStepping(c, w, e)
    ensures Inv(c, Next(c, w, e))
  {
    match e
    case Timeout(n) => TimeoutInv(c, w, n);
    case DeliverRequest(req, v) => DeliverRequestInv(c, w, req, v);
    case DeliverResponse(cand, t, resp) => DeliverResponseInv(c, w, cand, t, resp);
    case StepDownNow(n) => StepDownInv(c, w, n);
    case EndPoll(n) => EndPollInv(c, w, n);
    case Broadcast(n) => BroadcastInv(c, w, n);
    case DeliverBeat(l, t, v) => DeliverBeatInv(c, w, l, t, v);
    case Restart(n) => RestartInv(c, w, n);
  }

  lemma WaitingVoteBreaksInv(c: Cluster, w: World, req: VoteRequest, v: NodeId)
    requires Shape(c, w) && Enabled(c, w, DeliverRequest(req, v)) && VotesWhileStepping(c, w, DeliverRequest(req, v))
    ensures !Inv(c, Next(c, w, DeliverRequest(req, v)))
  {
    var w' := Next(c, w, DeliverRequest(req, v));
    assert (v, w'.nodes[v].term) in w'.grants && v in w'.stepping;
    assert !NodeInv(c, w', v);
  }

  /** A step breaks the invariant exactly when it is a vote of a node that waits for the disk. */
  lemma NextInvIff(c: Cluster, w: World, e: Event)
    requires c.Valid() && Inv(c, w) && Enabled(c, w, e)
    ensures Inv(c, Next(c, w, e)) <==> !VotesWhileStepping(c, w, e)
  {
    if VotesWhileStepping(c, w, e) {
      WaitingVoteBreaksInv(c, w, e.req, e.voter);
    } else {
      NextInv(c, w, e);
    }
  }

  /** What such a vote costs, in any state: once the node has stepped down, it grants any other
      candidate of enough priority its vote of the same term, and has then said yes to two. */
  lemma WaitingVoteIsCastTwice(c: Cluster, w: World, req: VoteRequest, v: NodeId, other: VoteRequest)
    requires Shape(c, w) && Enabled(c, w, DeliverRequest(req, v)) && VotesWhileStepping(c, w, DeliverRequest(req, v))
    requires other in w.requests && other.term == req.term && other.candidateId !in {v, req.candidateId}
    requires other.candidatePriority >= c.priority[v]
    ensures var w1 := Next(c, w, DeliverRequest(req, v));
            && Shape(c, w1) && Enabled(c, w1, StepDownNow(v))
            && var w2 := Next(c, w1, StepDownNow(v));
               && Shape(c, w2) && Enabled(c, w2, DeliverRequest(other, v))
               && var w3 := Next(c, w2, DeliverRequest(other, v));
                  && (req.candidateId, req.term, VoteResponse(req.term, true, v)) in w3.responses
                  && (other.candidateId, req.term, VoteResponse(req.term, true, v)) in w3.responses
  {
    var w1 := Next(c, w, DeliverRequest(req, v));
    assert w1.nodes[v].term == req.term && v in w1.stepping && other in w1.requests;
    var w2 := Next(c, w1, StepDownNow(v));
    assert w2.nodes[v].term == req.term && w2.nodes[v].votedFor == None;
  }

  lemma {:induction false} RunInv(c: Cluster, es: seq<Event>)
    requires c.Valid() && Undisturbed(c, es)
    ensures Inv(c, After(c, es))
    decreases |es|
  {
    if es == [] {
      BootInv(c);
    } else {
      var past := es[..|es| - 1];
      RunInv(c, past);
      if Enabled(c, After(c, past), es[|es| - 1]) {
        NextInv(c, After(c, past), es[|es| - 1]);
      }
    }
  }

  /** One event: terms, own tokens and everything said or won so far only grow. */
  ghost predicate Grows(c: Cluster, w: World, w': World)
  {
    && Shape(c, w) && Shape(c, w')
    && w.certs.Keys <= w'.certs.Keys && w.responses <= w'.responses
    && (forall n :: n in c.members ==> w.nodes[n].term <= w'.nodes[n].term)
    && (forall n :: n in c.members ==> w.nodes[n].fencingToken <= w'.nodes[n].fencingToken)
  }

  /** Replacing a node's state by one of no lower term and token. */
  lemma PutGrows(c: Cluster, w: World, n: NodeId, s: ElectionState, saves: bool, w': World)
    requires Shape(c, w) && n in c.members && s.term >= w.nodes[n].term && s.fencingToken >= w.nodes[n].fencingToken
    requires var p := Put(w, n, s, saves); w'.nodes == p.nodes && w'.diskVote == p.diskVote && w'.certs == p.certs
    requires w'.polls.Keys == c.members && w.responses <= w'.responses
    ensures Grows(c, w, w')
  {
  }

  lemma RequestGrows(c: Cluster, w: World, req: VoteRequest, v: NodeId)
    requires Shape(c, w) && Enabled(c, w, DeliverRequest(req, v))
    ensures Grows(c, w, Next(c, w, DeliverRequest(req, v)))
  {
    var (s, resp) := OnVoteRequest(w.nodes[v], v, c.priority[v], req);
    PutGrows(c, w, v, s, req.term > w.nodes[v].term || resp.voteGranted, Next(c, w, DeliverRequest(req, v)));
  }

  lemma ResponseGrows(c: Cluster, w: World, n: NodeId, t: nat, resp: VoteResponse)
    requires Shape(c, w) && Enabled(c, w, DeliverResponse(n, t, resp))
    ensures Grows(c, w, Next(c, w, DeliverResponse(n, t, resp)))
  {
    var s := OnVoteResponse(w.nodes[n], n, c.known[n], resp);
    PutGrows(c, w, n, s, Outvoted(w.nodes[n], resp) || s.fencingToken > w.nodes[n].fencingToken,
             Next(c, w, DeliverResponse(n, t, resp)));
  }

  lemma NextGrows(c: Cluster, w: World, e: Event)
    requires Shape(c, w) && Enabled(c, w, e)
    ensures Grows(c, w, Next(c, w, e))
  {
    var w' := Next(c, w, e);
    match e
    case Timeout(n) => PutGrows(c, w, n, w'.nodes[n], true, w');
    case DeliverRequest(req, v) => RequestGrows(c, w, req, v);
    case DeliverResponse(n, t, resp) => ResponseGrows(c, w, n, t, resp);
    case StepDownNow(n) => PutGrows(c, w, n, w'.nodes[n], false, w');
    case EndPoll(n) => PutGrows(c, w, n, w'.nodes[n], w'.nodes[n].fencingToken > w.nodes[n].fencingToken, w');
    case Broadcast(_) =>
    case DeliverBeat(_, t, v) => PutGrows(c, w, v, w'.nodes[v], t >= w.nodes[v].term, w');
    case Restart(n) => PutGrows(c, w, n, w'.nodes[n], false, w');
  }

  lemma GrowsOn(c: Cluster, w: World, w1: World, w2: World)
    requires Grows(c, w, w1) && Grows(c, w1, w2)
    ensures Grows(c, w, w2)
  {
  }

  /** Along a run, crashes and reloads included, no term and no node's own fencing token goes
      back, no leadership is forgotten and no answer unsaid. */
  lemma {:induction false} RunGrows(c: Cluster, es: seq<Event>, i: nat)
    requires c.Valid() && i <= |es|
    ensures Grows(c, After(c, es[..i]), After(c, es))
    decreases |es|
  {
    if i == |es| {
      assert es[..i] == es;
    } else {
      var past := es[..|es| - 1];
      RunGrows(c, past, i);
      assert past[..i] == es[..i];
      if Enabled(c, After(c, past), es[|es| - 1]) {
        NextGrows(c, After(c, past), es[|es| - 1]);
        GrowsOn(c, After(c, past[..i]), After(c, past), After(c, es));
      }
    }
  }

  // ---------- theorems ----------

  lemma {:induction false} UndisturbedPrefix(c: Cluster, es: seq<Event>, i: nat)
    requires c.Valid() && Undisturbed(c, es) && i <= |es|
    ensures Undisturbed(c, es[..i])
    decreases |es|
  {
    if i < |es| {
      var past := es[..|es| - 1];
      assert past[..i] == es[..i];
      UndisturbedPrefix(c, past, i);
    } else {
      assert es[..i] == es;
    }
  }

  /** A node that leads at some moment of a run has its election on record at the end. */
  lemma LeaderOnRecord(c: Cluster, es: seq<Event>, i: nat, n: NodeId)
    requires c.Valid() && Undisturbed(c, es) && i <= |es| && Leads(c, After(c, es[..i]), n)
    ensures (n, After(c, es[..i]).nodes[n].term) in After(c, es).certs
  {
    UndisturbedPrefix(c, es, i);
    RunInv(c, es[..i]);
    assert NodeInv(c, After(c, es[..i]), n);
    RunGrows(c, es, i);
  }

  /** Election safety: over a whole run, losses, delays, repetitions and restarts included, the
      leaders of one term are one and the same node. */
  lemma ElectionSafety(c: Cluster, es: seq<Event>, i: nat, j: nat, n: NodeId, m: NodeId)
    requires c.Valid() && Undisturbed(c, es) && i <= |es| && j <= |es|
    requires Leads(c, After(c, es[..i]), n) && Leads(c, After(c, es[..j]), m)
    requires After(c, es[..i]).nodes[n].term == After(c, es[..j]).nodes[m].term
    ensures n == m
  {
    var t := After(c, es[..i]).nodes[n].term;
    LeaderOnRecord(c, es, i, n);
    LeaderOnRecord(c, es, j, m);
    RunInv(c, es);
    OneLeaderPerTerm(c, After(c, es), n, m, t);
  }

  /** Vote discipline, on all the answers sent in a run: whatever happens in between, restarts
      included, a node answers yes to at most one candidate per term, never to itself, and
      never to a candidate of lower priority. */
  lemma VoteDiscipline(c: Cluster, es: seq<Event>, a: (NodeId, nat, VoteResponse), b: (NodeId, nat, VoteResponse))
    requires c.Valid() && Undisturbed(c, es) && a in After(c, es).responses && b in After(c, es).responses
    requires a.2.voteGranted && b.2.voteGranted && a.2.voterId == b.2.voterId && a.1 == b.1
    ensures a.0 == b.0 && a.0 != a.2.voterId
    ensures a.0 in c.priority && a.2.voterId in c.priority && c.priority[a.0] >= c.priority[a.2.voterId]
  {
    RunInv(c, es);
    assert GrantInv(c, After(c, es), a.2.voterId, a.1);
  }

  /** An elected leader's priority is at least that of every node in some majority. */
  lemma LeaderOutranksMajority(c: Cluster, es: seq<Event>, n: NodeId) returns (quorum: set<NodeId>)
    requires c.Valid() && Undisturbed(c, es) && Leads(c, After(c, es), n)
    ensures quorum <= c.members && n in quorum && 2 * |quorum| > |c.members|
    ensures forall v :: v in quorum ==> c.priority[v] <= c.priority[n]
  {
    var w := After(c, es);
    var t := w.nodes[n].term;
    RunInv(c, es);
    assert NodeInv(c, w, n) && CertInv(c, w, n, t);
    quorum := w.certs[(n, t)];
    forall v | v in quorum ensures c.priority[v] <= c.priority[n] {
      if v != n { assert GrantInv(c, w, v, t); }
    }
  }
}
