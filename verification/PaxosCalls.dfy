/**
 A whole call of `choose` that meets no trouble: the servers it reaches have
 nothing to report, accept its value and confirm it.
 */
module PaxosCalls {
  import opened Options
  import opened PaxosServer
  import opened PaxosProtocol
  import opened PaxosReconfiguration
  import opened PaxosRuns

  /** The answer of a server that has nothing to report. */
  const PROMISE := Response(None, None, false)

  /** The server answers `b` with a plain promise. */
  predicate Clean(server: ServerState, q: Quorum, b: Proposal) {
    Propose(server, q, b).1 == Ok(PROMISE)
  }

  /** The server also accepts and confirms `v` at `b`. */
  predicate Serves(server: ServerState, q: Quorum, b: Proposal, v: Value) {
    var promised := Propose(server, q, b).0;
    var accepted := Accept(promised, q, b, v);
    Clean(server, q, b) && accepted.1 == Ok(b) && Confirm(accepted.0, q, b).1.Ok?
  }

  /** The server once it promised, accepted and confirmed. */
  function Served(server: ServerState, q: Quorum, b: Proposal, v: Value): ServerState {
    Confirm(Accept(Propose(server, q, b).0, q, b, v).0, q, b).0
  }

  lemma CleanLets(terms: Terms, q: Quorum, st: State, b: Proposal, x: set<ServerId>)
    requires x <= st.servers.Keys && x <= q && Majority(x, q)
    requires forall s :: s in x ==> Clean(st.servers[s], q, b)
    ensures Answers(terms, q, st, b, x) && Lets(terms, q, st, b, x, None)
  {
    assert forall s :: s in x ==> Answer(q, st, b, s) == Ok(PROMISE);
  }

  /** A new attempt of a caller, to which the servers `x` promise. */
  lemma ReachPromised(terms: Terms, q: Quorum, st: State, b: Proposal, v: Value, x: set<ServerId>)
    returns (st': State)
    requires b !in st.attempts && InForce(terms.first, st.outcomes, b.version, q)
    requires x <= st.servers.Keys && x <= q && Majority(x, q)
    requires forall s :: s in x ==> Clean(st.servers[s], q, b)
    ensures Reach(terms, st, st') && OthersKept(st, b, st') && st'.outcomes == st.outcomes
    ensures st'.servers.Keys == st.servers.Keys
    ensures forall s :: s in st.servers ==>
              st'.servers[s] == if s in x then Propose(st.servers[s], q, b).0 else st.servers[s]
    ensures Ready(st', b, q, v, x)
  {
    var st1 := ReachOpened(terms, st, b, q, v);
    CleanLets(terms, q, st1, b, x);
    st' := ReachDecided(terms, q, st1, b, v, x, None, v);
    ReachThen(terms, st, st1, st');
  }

  /** The servers `x` serve the attempt, and its call returns. */
  lemma ReachServed(terms: Terms, q: Quorum, st: State, b: Proposal, v: Value, x: set<ServerId>) returns (st': State)
    requires Opened(st, b, q, v) && x <= st.servers.Keys && x <= q && Majority(x, q)
    requires forall s :: s in x ==> Serves(st.servers[s], q, b, v)
    ensures Reach(terms, st, st') && OthersKept(st, b, st')
    ensures st'.servers.Keys == st.servers.Keys
    ensures forall s :: s in st.servers ==>
              st'.servers[s] == if s in x then Served(st.servers[s], q, b, v) else st.servers[s]
    ensures st'.outcomes == st.outcomes + {Outcome(b.version, v)}
  {
    CleanLets(terms, q, st, b, x);
    var st1 := ReachDecided(terms, q, st, b, v, x, None, v);
    var st2 := ReachCommitted(terms, q, st1, b, v, x, x);
    ReachThen(terms, st, st1, st2);
    st' := ReachReturned(terms, q, st2, b, v, x);
    ReachThen(terms, st, st2, st');
  }

  /** The same for the call of a caller. */
  lemma ReachAnswered(terms: Terms, q: Quorum, st: State, b: Proposal, v: Value, x: set<ServerId>)
    returns (st': State)
    requires b !in st.attempts && InForce(terms.first, st.outcomes, b.version, q)
    requires x <= st.servers.Keys && x <= q && Majority(x, q)
    requires forall s :: s in x ==> Serves(st.servers[s], q, b, v)
    ensures Reach(terms, st, st') && OthersKept(st, b, st')
    ensures st'.servers.Keys == st.servers.Keys
    ensures forall s :: s in st.servers ==>
              st'.servers[s] == if s in x then Served(st.servers[s], q, b, v) else st.servers[s]
    ensures st'.outcomes == st.outcomes + {Outcome(b.version, v)}
  {
    var st1 := ReachOpened(terms, st, b, q, v);
    st' := ReachServed(terms, q, st1, b, v, x);
    ReachThen(terms, st, st1, st');
  }
}
