/** When a poll of an election is won, and whom a node names as its leader, over every run. */
module ElectionPolls {
  import opened Options
  import opened Election

  // ---------- when a poll is won ----------

  /** Enough votes are more than half of the peers and the node itself, not one more and not one
      less; so a node that lists itself among its peers counts itself twice. */
  lemma MajorityIff(c: Cluster, n: NodeId, votes: set<NodeId>)
    requires c.Valid() && n in c.members
    ensures |votes| >= Majority(c.known[n]) <==> 2 * |votes| > |c.known[n]| + 1
    ensures |votes| >= Majority(c.known[n]) <==> 2 * |votes| > |c.members| + (if n in c.known[n] then 1 else 0)
  {
    assert c.members == c.known[n] + {n};
    if n in c.known[n] { assert c.members == c.known[n]; }
  }

  /** What a vote request does, in terms of the request alone: a yes exactly if it is of the node's
      priority or above and of a later term, or of this term and the vote is free or the
      candidate's already. A later term is adopted either way, with the old term's vote forgotten. */
  lemma VoteGrantedIff(s: ElectionState, me: NodeId, priority: int, req: VoteRequest)
    ensures var (s', resp) := OnVoteRequest(s, me, priority, req);
            && (resp.voteGranted <==>
                  && req.candidatePriority >= priority
                  && (req.term > s.term || (req.term == s.term && s.votedFor in {None, Some(req.candidateId)})))
            && s'.votedFor == (if resp.voteGranted then Some(req.candidateId)
                               else if req.term > s.term then None else s.votedFor)
            && s'.term == resp.term == (if req.term > s.term then req.term else s.term) && resp.voterId == me
            && (s'.role, s'.votes) == (if req.term > s.term then (Follower, {}) else (s.role, s.votes))
            && s'.leaderId == s.leaderId && s'.fencingToken == s.fencingToken
  {
  }

  /** The event gives n more than half of the votes: a candidate counts a yes, or the loop of its
      poll ends. */
  ghost predicate Wins(c: Cluster, w: World, e: Event, n: NodeId)
    requires Shape(c, w) && Enabled(c, w, e) && n in c.members
  {
    match e
    case DeliverResponse(cand, _, resp) =>
      && cand == n && w.nodes[n].role == Candidate && resp.voteGranted && resp.term <= w.nodes[n].term
      && 2 * |w.nodes[n].votes + {resp.voterId}| > |c.known[n]| + 1
    case EndPoll(k) => k == n && 2 * |w.nodes[n].votes| > |c.known[n]| + 1
    case _ => false
  }

  /** One node's part of a step. */
  ghost function Stepped(c: Cluster, w: World, e: Event, n: NodeId): ElectionState
    requires Shape(c, w) && Enabled(c, w, e) && n in c.members
  {
    var s := w.nodes[n];
    match e
    case Timeout(k) => if k == n then OpenPoll(s, n) else s
    case DeliverRequest(req, v) => if v == n then OnVoteRequest(s, n, c.priority[n], req).0 else s
    case DeliverResponse(k, _, resp) => if k == n then OnVoteResponse(s, n, c.known[n], resp) else s
    case StepDownNow(k) => if k == n then BecomeFollower(s) else s
    case EndPoll(k) => if k == n then ClosePoll(s, n, c.known[n]) else s
    case Broadcast(_) => s
    case DeliverBeat(l, t, v) => if v == n then OnHeartbeat(s, l, t) else s
    case Restart(k) => if k == n then Reload(s, w.diskVote[n]) else s
  }

  lemma SteppedIs(c: Cluster, w: World, e: Event, n: NodeId)
    requires Shape(c, w) && Enabled(c, w, e) && n in c.members
    ensures Next(c, w, e).nodes[n] == Stepped(c, w, e, n)
  {
  }

  /** Office is taken exactly by winning, with the next token; no other event makes a leader. */
  lemma OfficeByWinning(c: Cluster, w: World, e: Event, n: NodeId)
    requires Shape(c, w) && Enabled(c, w, e) && n in c.members
    ensures var s, s' := w.nodes[n], Next(c, w, e).nodes[n];
            if Wins(c, w, e, n)
            then s'.role == Leader && s'.leaderId == Some(n) && s'.fencingToken == s.fencingToken + 1 && s'.term == s.term
            else s'.fencingToken == s.fencingToken && (s'.role == Leader ==> s.role == Leader)
  {
    SteppedIs(c, w, e, n);
    SteppedOffice(c, w, e, n);
  }

  lemma SteppedOffice(c: Cluster, w: World, e: Event, n: NodeId)
    requires Shape(c, w) && Enabled(c, w, e) && n in c.members
    ensures var s, s' := w.nodes[n], Stepped(c, w, e, n);
            if Wins(c, w, e, n)
            then s'.role == Leader && s'.leaderId == Some(n) && s'.fencingToken == s.fencingToken + 1 && s'.term == s.term
            else s'.fencingToken == s.fencingToken && (s'.role == Leader ==> s.role == Leader)
  {
  }

  /** How many polls of a run the node has won. */
  ghost function WinCount(c: Cluster, es: seq<Event>, n: NodeId): nat
    requires c.Valid() && n in c.members
    decreases |es|
  {
    if es == [] then 0
    else
      var past, e := es[..|es| - 1], es[|es| - 1];
      WinCount(c, past, n) + Won(c, After(c, past), e, n)
  }

  ghost function Won(c: Cluster, w: World, e: Event, n: NodeId): nat
    requires Shape(c, w) && n in c.members
  {
    if Enabled(c, w, e) && Wins(c, w, e, n) then 1 else 0
  }

  /** A candidate with peers holds at most half of the votes. */
  ghost predicate NotWonYet(c: Cluster, w: World, n: NodeId)
    requires Shape(c, w) && n in c.members
  {
    w.nodes[n].role == Candidate && c.known[n] != {} ==> 2 * |w.nodes[n].votes| <= |c.known[n]| + 1
  }

  /** What a run leaves of one node's polls. */
  ghost predicate Tallied(c: Cluster, w: World, n: NodeId, won: nat) {
    Shape(c, w) && n in c.members && w.nodes[n].fencingToken == won && NotWonYet(c, w, n)
  }

  ghost function Moved(c: Cluster, w: World, e: Event): World
    requires Shape(c, w)
  {
    if Enabled(c, w, e) then Next(c, w, e) else w
  }

  lemma TallyStep(c: Cluster, w: World, e: Event, n: NodeId, won: nat)
    requires Tallied(c, w, n, won)
    ensures Tallied(c, Moved(c, w, e), n, won + Won(c, w, e, n))
  {
    if Enabled(c, w, e) {
      OfficeByWinning(c, w, e, n);
      CandidateStep(c, w, e, n);
    }
  }

  lemma {:induction false} RunTallied(c: Cluster, es: seq<Event>, n: NodeId)
    requires c.Valid() && n in c.members
    ensures Tallied(c, After(c, es), n, WinCount(c, es, n))
    decreases |es|
  {
    if es != [] {
      var past, e := es[..|es| - 1], es[|es| - 1];
      RunTallied(c, past, n);
      TallyStep(c, After(c, past), e, n, WinCount(c, past, n));
      assert After(c, es) == Moved(c, After(c, past), e);
    }
  }

  /** In every run, restarts and votes cast while waiting included, a node's fencing token is the
      number of polls it has won, and a candidate with peers holds at most half of the votes:
      a poll that is won is never left waiting. */
  lemma TokenCountsWins(c: Cluster, es: seq<Event>, n: NodeId)
    requires c.Valid() && n in c.members
    ensures After(c, es).nodes[n].fencingToken == WinCount(c, es, n)
    ensures After(c, es).nodes[n].role == Candidate && c.known[n] != {} ==>
              2 * |After(c, es).nodes[n].votes| <= |c.known[n]| + 1
  {
    RunTallied(c, es, n);
  }

  lemma CandidateStep(c: Cluster, w: World, e: Event, n: NodeId)
    requires Shape(c, w) && Enabled(c, w, e) && n in c.members && NotWonYet(c, w, n)
    ensures NotWonYet(c, Next(c, w, e), n)
  {
    SteppedIs(c, w, e, n);
    if c.known[n] != {} { SteppedCandidate(c, w, e, n); }
  }

  lemma SteppedCandidate(c: Cluster, w: World, e: Event, n: NodeId)
    requires Shape(c, w) && Enabled(c, w, e) && n in c.members && c.known[n] != {}
    requires w.nodes[n].role == Candidate ==> 2 * |w.nodes[n].votes| <= |c.known[n]| + 1
    ensures var s := Stepped(c, w, e, n); s.role == Candidate ==> 2 * |s.votes| <= |c.known[n]| + 1
  {
    assert |c.known[n]| > 0 by { var k :| k in c.known[n]; assert c.known[n] == {k} + (c.known[n] - {k}); }
  }

  // ---------- the leader a node names ----------

  /** After a heartbeat that is not old the node is in the sender's term and names the sender. */
  lemma HeartbeatNamesLeader(s: ElectionState, leader: NodeId, term: nat)
    ensures var s' := OnHeartbeat(s, leader, term);
            if term < s.term then s' == s
            else s'.leaderId == Some(leader) && s'.term == term && s'.role == Follower
                 && s'.fencingToken == s.fencingToken
                 && s'.votedFor == (if s.role == Follower then s.votedFor else None)
  {
  }

  ghost predicate ElectedBy(w: World, l: NodeId, now: nat) {
    exists t: nat :: t <= now && (l, t) in w.certs
  }

  ghost predicate Named(c: Cluster, w: World)
    requires Shape(c, w)
  {
    forall n :: n in c.members && w.nodes[n].leaderId.Some? ==> ElectedBy(w, w.nodes[n].leaderId.value, w.nodes[n].term)
  }

  /** A node comes to name another leader by a heartbeat, and itself by winning. */
  lemma NewName(c: Cluster, w: World, e: Event, n: NodeId)
    requires Shape(c, w) && Enabled(c, w, e) && n in c.members
    ensures var s, s' := w.nodes[n], Next(c, w, e).nodes[n];
            s'.leaderId in {None, s.leaderId} || (s'.leaderId == Some(n) && Wins(c, w, e, n))
            || (s'.leaderId.Some? && (s'.leaderId.value, s'.term) in w.beats)
  {
    SteppedIs(c, w, e, n);
    SteppedName(c, w, e, n);
  }

  lemma SteppedName(c: Cluster, w: World, e: Event, n: NodeId)
    requires Shape(c, w) && Enabled(c, w, e) && n in c.members
    ensures var s, s' := w.nodes[n], Stepped(c, w, e, n);
            s'.leaderId in {None, s.leaderId} || (s'.leaderId == Some(n) && Wins(c, w, e, n))
            || (s'.leaderId.Some? && (s'.leaderId.value, s'.term) in w.beats)
  {
  }

  lemma OfficeRecorded(c: Cluster, w: World, e: Event, n: NodeId)
    requires Shape(c, w) && Enabled(c, w, e) && n in c.members && Wins(c, w, e, n)
    ensures (n, Next(c, w, e).nodes[n].term) in Next(c, w, e).certs
  {
  }

  lemma StillElected(c: Cluster, w: World, w': World, l: NodeId, n: NodeId)
    requires Shape(c, w) && NetInv(c, w) && Named(c, w) && Grows(c, w, w') && n in c.members
    requires KnownName(w, w', l, n)
    ensures ElectedBy(w', l, w'.nodes[n].term)
  {
    if w.nodes[n].leaderId == Some(l) {
      var t: nat :| t <= w.nodes[n].term && (l, t) in w.certs;
      assert (l, t) in w'.certs && t <= w'.nodes[n].term;
    } else {
      assert (l, w'.nodes[n].term) in w'.certs;
    }
  }

  /** The node names who it named before, itself on winning, or the sender of a heartbeat. */
  ghost predicate KnownName(w: World, w': World, l: NodeId, n: NodeId)
    requires n in w.nodes && n in w'.nodes
  {
    w.nodes[n].leaderId == Some(l) || (l, w'.nodes[n].term) in w'.certs || (l, w'.nodes[n].term) in w.beats
  }

  lemma NamesElected(c: Cluster, w: World, e: Event, n: NodeId)
    requires Shape(c, w) && Enabled(c, w, e) && n in c.members && Next(c, w, e).nodes[n].leaderId.Some?
    ensures var w' := Next(c, w, e); KnownName(w, w', w'.nodes[n].leaderId.value, n)
  {
    NewName(c, w, e, n);
    if Wins(c, w, e, n) { OfficeRecorded(c, w, e, n); }
  }

  lemma NamedStep(c: Cluster, w: World, e: Event)
    requires Shape(c, w) && NetInv(c, w) && Named(c, w) && Enabled(c, w, e)
    ensures Named(c, Next(c, w, e))
  {
    var w' := Next(c, w, e);
    NextGrows(c, w, e);
    forall n | n in c.members && w'.nodes[n].leaderId.Some?
      ensures ElectedBy(w', w'.nodes[n].leaderId.value, w'.nodes[n].term)
    {
      NamesElected(c, w, e, n);
      StillElected(c, w, w', w'.nodes[n].leaderId.value, n);
    }
  }

  /** Whoever a node names as leader was elected, in a term the node has reached. */
  lemma {:induction false} NamedLeaderWasElected(c: Cluster, es: seq<Event>, n: NodeId)
    requires c.Valid() && Undisturbed(c, es) && n in c.members && After(c, es).nodes[n].leaderId.Some?
    ensures ElectedBy(After(c, es), After(c, es).nodes[n].leaderId.value, After(c, es).nodes[n].term)
  {
    RunNamed(c, es);
  }

  lemma {:induction false} RunNamed(c: Cluster, es: seq<Event>)
    requires c.Valid() && Undisturbed(c, es)
    ensures Named(c, After(c, es))
    decreases |es|
  {
    if es != [] {
      var past := es[..|es| - 1];
      RunNamed(c, past);
      RunInv(c, past);
      if Enabled(c, After(c, past), es[|es| - 1]) {
        NamedStep(c, After(c, past), es[|es| - 1]);
      }
    }
  }
}
