/** Runs of three nodes: two votes in one term, and two leaders of one term. */
module ElectionRuns {
  import opened Options
  import opened Election

  lemma AfterOne(c: Cluster, es: seq<Event>, e: Event)
    requires c.Valid() && Enabled(c, After(c, es), e)
    ensures After(c, es + [e]) == Next(c, After(c, es), e)
  {
    assert (es + [e])[..|es + [e]| - 1] == es;
  }

  ghost function Trio(a: NodeId, b: NodeId, d: NodeId): Cluster {
    Cluster({a, b, d}, map[a := {b, d}, b := {a, d}, d := {a, b}], map[a := 0, b := 0, d := 0])
  }

  ghost predicate Asked(c: Cluster, w: World, a: NodeId, d: NodeId)
  {
    Shape(c, w) && a in c.members && d in c.members && VoteRequest(1, a, 0) in w.requests && w.stepping == {}
  }

  lemma KnownToAll(a: NodeId, b: NodeId, d: NodeId)
    requires a != b && a != d && b != d
    ensures Majority(Trio(a, b, d).known[a]) == 2 && Majority(Trio(a, b, d).known[b]) == 2
  {
    assert |{b, d}| == 2 && |{a, d}| == 2;
  }

  lemma TrioValid(a: NodeId, b: NodeId, d: NodeId)
    requires a != b && a != d && b != d
    ensures Trio(a, b, d).Valid() && Majority(Trio(a, b, d).known[a]) == 2
  {
    var c := Trio(a, b, d);
    TrioKeys(a, b, d);
    TrioKnown(a, b, d);
    KnownToAll(a, b, d);
    forall n {:trigger c.known[n]} | n in c.members ensures c.known[n] + {n} == c.members {
      assert n == a || n == b || n == d;
    }
  }

  lemma TrioKeys(a: NodeId, b: NodeId, d: NodeId)
    ensures Trio(a, b, d).known.Keys == Trio(a, b, d).priority.Keys == Trio(a, b, d).members == {a, b, d}
  {
  }

  lemma TrioKnown(a: NodeId, b: NodeId, d: NodeId)
    requires a != b && a != d && b != d
    ensures Trio(a, b, d).known[a] == {b, d} && Trio(a, b, d).known[b] == {a, d} && Trio(a, b, d).known[d] == {a, b}
    ensures {b, d} + {a} == {a, d} + {b} == {a, b} + {d} == Trio(a, b, d).members
  {
  }

  lemma AAsksB(c: Cluster, a: NodeId, b: NodeId, d: NodeId) returns (es: seq<Event>)
    requires c.Valid() && a != b && a != d && b != d && {a, b, d} <= c.members
    requires c.priority[a] == 0 && c.priority[b] == 0
    ensures |es| == 2
    ensures var w := After(c, es);
            Asked(c, w, a, d) && w.nodes[a] == OpenPoll(Fresh(), a) && w.polls[a] == Some(1) &&
            w.nodes[d] == Fresh() && w.polls[d] == None && (a, 1, VoteResponse(1, true, b)) in w.responses
  {
    var e1, e2 := Timeout(a), DeliverRequest(VoteRequest(1, a, 0), b);
    AfterOne(c, [], e1);
    AfterOne(c, [] + [e1], e2);
    es := [] + [e1] + [e2];
  }

  lemma AWins(a: NodeId, b: NodeId, d: NodeId) returns (es: seq<Event>)
    requires a != b && a != d && b != d
    ensures Trio(a, b, d).Valid() && |es| == 3
    ensures var w := After(Trio(a, b, d), es);
            Asked(Trio(a, b, d), w, a, d) && w.nodes[a].role == Leader && w.nodes[a].term == 1 &&
            w.nodes[d] == Fresh() && w.polls[d] == None
  {
    var c := Trio(a, b, d);
    TrioValid(a, b, d);
    var es2 := AAsksB(c, a, b, d);
    var e3 := DeliverResponse(a, 1, VoteResponse(1, true, b));
    AfterOne(c, es2, e3);
    assert {a} + {b} == {a, b} && |{a, b}| == 2;
    es := es2 + [e3];
  }

  lemma DHearsLeader(c: Cluster, es: seq<Event>, a: NodeId, d: NodeId) returns (es': seq<Event>)
    requires c.Valid() && a != d && Asked(c, After(c, es), a, d)
    requires After(c, es).nodes[a].role == Leader && After(c, es).nodes[a].term == 1
    requires After(c, es).nodes[d] == OpenPoll(Fresh(), d)
    ensures es <= es'
    ensures var w := After(c, es');
            && VoteRequest(1, a, 0) in w.requests && w.nodes[d].term == 1 && w.nodes[d].votedFor == None
  {
    AfterOne(c, es, Broadcast(a));
    AfterOne(c, es + [Broadcast(a)], DeliverBeat(a, 1, d));
    es' := es + [Broadcast(a)] + [DeliverBeat(a, 1, d)];
  }

  lemma DVotesAgain(c: Cluster, es: seq<Event>, a: NodeId, d: NodeId) returns (es': seq<Event>)
    requires c.Valid() && {a, d} <= c.members && a != d && VoteRequest(1, a, 0) in After(c, es).requests
    requires After(c, es).nodes[d].term == 1 && After(c, es).nodes[d].votedFor == None && c.priority[d] == 0
    ensures es <= es'
    ensures After(c, es').nodes[d].term == 1 && After(c, es').nodes[d].votedFor == Some(a)
    ensures (a, 1, VoteResponse(1, true, d)) in After(c, es').responses
  {
    AfterOne(c, es, DeliverRequest(VoteRequest(1, a, 0), d));
    es' := es + [DeliverRequest(VoteRequest(1, a, 0), d)];
  }

  /** "One vote per term" is false of the cluster too: in a cluster of three, d votes for itself
      in term 1, steps down for the leader a of term 1, and then votes for a in term 1. */
  lemma TwoVotesInOneTermReachable(a: NodeId, b: NodeId, d: NodeId) returns (c: Cluster, es: seq<Event>, es': seq<Event>)
    requires a != b && a != d && b != d
    ensures c.Valid() && d in c.members && es <= es'
    ensures After(c, es).nodes[d].term == 1 && After(c, es).nodes[d].votedFor == Some(d)
    ensures After(c, es').nodes[d].term == 1 && After(c, es').nodes[d].votedFor == Some(a)
    ensures (a, 1, VoteResponse(1, true, d)) in After(c, es').responses
  {
    c := Trio(a, b, d);
    assert d in c.members;
    es := AWins(a, b, d);
    es := OpensPoll(c, es, d);
    es' := DHearsLeader(c, es, a, d);
    es' := DVotesAgain(c, es', a, d);
  }

  lemma OpensPoll(c: Cluster, es: seq<Event>, n: NodeId) returns (es': seq<Event>)
    requires c.Valid() && Enabled(c, After(c, es), Timeout(n))
    ensures var w := After(c, es);
            After(c, es') ==
            w.(nodes := w.nodes[n := OpenPoll(w.nodes[n], n)],
               diskVote := w.diskVote[n := Some(n)],
               polls := w.polls[n := Some(w.nodes[n].term + 1)],
               requests := w.requests + {VoteRequest(w.nodes[n].term + 1, n, c.priority[n])})
  {
    AfterOne(c, es, Timeout(n));
    es' := es + [Timeout(n)];
  }

  // ---------- a disturbed run ----------

  lemma Restarts(c: Cluster, es: seq<Event>, n: NodeId) returns (es': seq<Event>)
    requires c.Valid() && n in c.members
    ensures var w := After(c, es);
            After(c, es') ==
            w.(nodes := w.nodes[n := Reload(w.nodes[n], w.diskVote[n])], polls := w.polls[n := None],
               stepping := w.stepping - {n})
  {
    AfterOne(c, es, Restart(n));
    es' := es + [Restart(n)];
  }

  /** d asks in term 1, b in term 2, a has not moved yet. */
  ghost predicate BAsksSecond(c: Cluster, w: World, a: NodeId, b: NodeId, d: NodeId) {
    && Shape(c, w) && {a, b, d} <= c.members && w.stepping == {}
    && w.polls[d] == Some(1) && w.nodes[d].term == 1
    && VoteRequest(1, d, 0) in w.requests && VoteRequest(2, b, 0) in w.requests
    && w.nodes[a] == Fresh() && w.polls[a] == None && w.nodes[b].term == 2
  }

  lemma DAsksThenB(c: Cluster, a: NodeId, b: NodeId, d: NodeId) returns (es: seq<Event>)
    requires c == Trio(a, b, d) && c.Valid() && a != b && a != d && b != d
    ensures BAsksSecond(c, After(c, es), a, b, d)
  {
    es := OpensPoll(c, [], d);
    es := OpensPoll(c, es, b);
    es := Restarts(c, es, b);
    es := OpensPoll(c, es, b);
  }

  /** d's vote loop waits for the disk, in term 2, before d steps down; a has moved to term 2 too. */
  ghost predicate DWaits(c: Cluster, w: World, a: NodeId, b: NodeId, d: NodeId) {
    && Shape(c, w) && {a, b, d} <= c.members
    && w.stepping == {d} && w.nodes[d].term == 2
    && w.nodes[a].term == 2 && w.nodes[a].role == Follower && w.polls[a] == None
    && w.nodes[b].term == 2
  }

  lemma AMovesOn(c: Cluster, es: seq<Event>, a: NodeId, b: NodeId, d: NodeId) returns (es': seq<Event>)
    requires c.Valid() && a != b && a != d && b != d && BAsksSecond(c, After(c, es), a, b, d)
    ensures var w := After(c, es');
            && w.stepping == {} && w.polls[d] == Some(1) && w.nodes[d].term == 1 && VoteRequest(1, d, 0) in w.requests
            && w.nodes[a].term == 2 && w.nodes[a].role == Follower && w.polls[a] == None && w.nodes[b].term == 2
  {
    AfterOne(c, es, DeliverRequest(VoteRequest(2, b, 0), a));
    es' := es + [DeliverRequest(VoteRequest(2, b, 0), a)];
  }

  lemma ASaysNo(c: Cluster, es: seq<Event>, a: NodeId, d: NodeId) returns (es': seq<Event>)
    requires c.Valid() && {a, d} <= c.members && a != d && VoteRequest(1, d, 0) in After(c, es).requests
    requires After(c, es).nodes[a].term == 2
    ensures var w, w' := After(c, es), After(c, es');
            && w'.nodes == w.nodes && w'.polls == w.polls && w'.stepping == w.stepping
            && (d, 1, VoteResponse(2, false, a)) in w'.responses
  {
    AfterOne(c, es, DeliverRequest(VoteRequest(1, d, 0), a));
    es' := es + [DeliverRequest(VoteRequest(1, d, 0), a)];
  }

  lemma DHearsNo(c: Cluster, es: seq<Event>, a: NodeId, d: NodeId) returns (es': seq<Event>)
    requires c.Valid() && {a, d} <= c.members && a != d && (d, 1, VoteResponse(2, false, a)) in After(c, es).responses
    requires After(c, es).stepping == {} && After(c, es).polls[d] == Some(1) && After(c, es).nodes[d].term == 1
    ensures var w, w' := After(c, es), After(c, es');
            && w'.nodes == w.nodes[d := w.nodes[d].(term := 2)] && w'.polls == w.polls && w'.stepping == {d}
  {
    AfterOne(c, es, DeliverResponse(d, 1, VoteResponse(2, false, a)));
    es' := es + [DeliverResponse(d, 1, VoteResponse(2, false, a))];
  }

  lemma DIsOutvoted(c: Cluster, es: seq<Event>, a: NodeId, b: NodeId, d: NodeId) returns (es': seq<Event>)
    requires c.Valid() && a != b && a != d && b != d && BAsksSecond(c, After(c, es), a, b, d)
    ensures DWaits(c, After(c, es'), a, b, d)
  {
    es' := AMovesOn(c, es, a, b, d);
    es' := ASaysNo(c, es', a, d);
    es' := DHearsNo(c, es', a, d);
  }

  /** n has opened the poll of term 3. */
  ghost predicate AsksForThree(c: Cluster, w: World, n: NodeId) {
    && Shape(c, w) && n in c.members
    && w.nodes[n].term == 3 && w.nodes[n].role == Candidate && w.nodes[n].votes == {n} && w.polls[n] == Some(3)
    && VoteRequest(3, n, 0) in w.requests
  }

  lemma AAsks(c: Cluster, es: seq<Event>, a: NodeId, b: NodeId, d: NodeId) returns (es': seq<Event>)
    requires c == Trio(a, b, d) && c.Valid() && a != b && a != d && b != d && DWaits(c, After(c, es), a, b, d)
    ensures var w := After(c, es');
            AsksForThree(c, w, a) && w.stepping == {d} && w.nodes[d].term == 2 && w.nodes[b].term == 2
  {
    es' := OpensPoll(c, es, a);
  }

  lemma BRestarts(c: Cluster, es: seq<Event>, a: NodeId, b: NodeId, d: NodeId) returns (es': seq<Event>)
    requires c == Trio(a, b, d) && c.Valid() && a != b && a != d && b != d && AsksForThree(c, After(c, es), a)
    requires After(c, es).stepping == {d} && After(c, es).nodes[d].term == 2 && After(c, es).nodes[b].term == 2
    ensures var w := After(c, es');
            && AsksForThree(c, w, a) && w.stepping == {d} && w.nodes[d].term == 2
            && w.nodes[b].term == 2 && w.nodes[b].role == Follower && w.polls[b] == None
  {
    es' := Restarts(c, es, b);
  }

  lemma BAsks(c: Cluster, es: seq<Event>, a: NodeId, b: NodeId, d: NodeId) returns (es': seq<Event>)
    requires c == Trio(a, b, d) && c.Valid() && a != b && a != d && b != d && AsksForThree(c, After(c, es), a)
    requires After(c, es).stepping == {d} && After(c, es).nodes[d].term == 2
    requires After(c, es).nodes[b].term == 2 && After(c, es).nodes[b].role == Follower && After(c, es).polls[b] == None
    ensures BothAsk(c, After(c, es'), a, b, d, 2)
  {
    es' := OpensPoll(c, es, b);
  }

  /** a and b both ask for term 3 while d, in term `dTerm`, waits. */
  ghost predicate BothAsk(c: Cluster, w: World, a: NodeId, b: NodeId, d: NodeId, dTerm: nat) {
    AsksForThree(c, w, a) && AsksForThree(c, w, b) && d in c.members && w.stepping == {d} && w.nodes[d].term == dTerm
  }

  /** n is a candidate of term 3 without a foreign vote, polls, and has d's vote on the way. */
  ghost predicate HasDsVote(c: Cluster, w: World, n: NodeId, d: NodeId) {
    && Shape(c, w) && n in c.members && w.stepping == {}
    && w.nodes[n].term == 3 && w.nodes[n].role == Candidate && w.nodes[n].votes == {n} && w.polls[n] == Some(3)
    && (n, 3, VoteResponse(3, true, d)) in w.responses
  }

  /** d votes for a while it waits. */
  lemma DVotesForA(c: Cluster, es: seq<Event>, a: NodeId, b: NodeId, d: NodeId) returns (es': seq<Event>)
    requires c == Trio(a, b, d) && c.Valid() && a != b && a != d && b != d && BothAsk(c, After(c, es), a, b, d, 2)
    ensures BothAsk(c, After(c, es'), a, b, d, 3) && (a, 3, VoteResponse(3, true, d)) in After(c, es').responses
  {
    AfterOne(c, es, DeliverRequest(VoteRequest(3, a, 0), d));
    es' := es + [DeliverRequest(VoteRequest(3, a, 0), d)];
  }

  /** The delayed step-down erases that vote. */
  lemma DForgets(c: Cluster, es: seq<Event>, a: NodeId, b: NodeId, d: NodeId) returns (es': seq<Event>)
    requires c == Trio(a, b, d) && c.Valid() && a != b && a != d && b != d && BothAsk(c, After(c, es), a, b, d, 3)
    requires (a, 3, VoteResponse(3, true, d)) in After(c, es).responses
    ensures var w := After(c, es');
            && HasDsVote(c, w, a, d) && AsksForThree(c, w, b) && d in c.members
            && w.nodes[d].term == 3 && w.nodes[d].votedFor == None
  {
    AfterOne(c, es, StepDownNow(d));
    es' := es + [StepDownNow(d)];
  }

  lemma DVotesForB(c: Cluster, es: seq<Event>, a: NodeId, b: NodeId, d: NodeId) returns (es': seq<Event>)
    requires c == Trio(a, b, d) && c.Valid() && a != b && a != d && b != d
    requires HasDsVote(c, After(c, es), a, d) && AsksForThree(c, After(c, es), b)
    requires After(c, es).nodes[d].term == 3 && After(c, es).nodes[d].votedFor == None
    ensures HasDsVote(c, After(c, es'), a, d) && HasDsVote(c, After(c, es'), b, d)
  {
    AfterOne(c, es, DeliverRequest(VoteRequest(3, b, 0), d));
    es' := es + [DeliverRequest(VoteRequest(3, b, 0), d)];
  }

  /** Counting d's vote for n makes n the leader of term 3 and changes no other node. */
  lemma NTakesOffice(c: Cluster, es: seq<Event>, n: NodeId, d: NodeId) returns (es': seq<Event>)
    requires c.Valid() && n in c.members && n != d && Majority(c.known[n]) == 2 && HasDsVote(c, After(c, es), n, d)
    ensures var w, w' := After(c, es), After(c, es');
            && Leads(c, w', n) && w'.nodes[n].term == 3 && w'.stepping == {}
            && w'.polls == w.polls && w'.responses == w.responses
            && forall k :: k in c.members && k != n ==> w'.nodes[k] == w.nodes[k]
  {
    assert |{n} + {d}| == 2;
    AfterOne(c, es, DeliverResponse(n, 3, VoteResponse(3, true, d)));
    es' := es + [DeliverResponse(n, 3, VoteResponse(3, true, d))];
  }

  lemma OneLeaderAtATime(c: Cluster, es: seq<Event>, n: NodeId, m: NodeId)
    requires c.Valid() && Undisturbed(c, es) && Leads(c, After(c, es), n) && Leads(c, After(c, es), m)
    requires After(c, es).nodes[n].term == After(c, es).nodes[m].term
    ensures n == m
  {
    assert es[..|es|] == es;
    ElectionSafety(c, es, |es|, |es|, n, m);
  }

  lemma NotUndisturbed(c: Cluster, es: seq<Event>, n: NodeId, m: NodeId)
    requires c.Valid() && n != m && Leads(c, After(c, es), n) && Leads(c, After(c, es), m)
    requires After(c, es).nodes[n].term == After(c, es).nodes[m].term
    ensures !Undisturbed(c, es)
  {
    if Undisturbed(c, es) { OneLeaderAtATime(c, es, n, m); }
  }

  /** Election safety is false of disturbed runs: a and b both lead term 3, because d voted for a
      while it waited for the disk. */
  lemma TwoLeadersReachable(a: NodeId, b: NodeId, d: NodeId) returns (c: Cluster, es: seq<Event>)
    requires a != b && a != d && b != d
    ensures c.Valid() && !Undisturbed(c, es)
    ensures Leads(c, After(c, es), a) && Leads(c, After(c, es), b)
    ensures After(c, es).nodes[a].term == After(c, es).nodes[b].term
  {
    c := Trio(a, b, d);
    TrioValid(a, b, d);
    KnownToAll(a, b, d);
    es := DAsksThenB(c, a, b, d);
    es := DIsOutvoted(c, es, a, b, d);
    es := AAsks(c, es, a, b, d);
    es := BRestarts(c, es, a, b, d);
    es := BAsks(c, es, a, b, d);
    es := DVotesForA(c, es, a, b, d);
    es := DForgets(c, es, a, b, d);
    es := DVotesForB(c, es, a, b, d);
    es := NTakesOffice(c, es, a, d);
    es := NTakesOffice(c, es, b, d);
    NotUndisturbed(c, es, a, b);
  }
}
