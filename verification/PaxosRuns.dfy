/**
 Building blocks for runs of the protocol: the calls of one client, one phase at
 a time, with the servers that it reaches.
 */
module PaxosRuns {
  import opened Options
  import opened PaxosServer
  import opened PaxosProtocol
  import opened PaxosSafety
  import opened PaxosReconfiguration
  import opened Sets

  /** What is asked of a run: callers name the quorum in force, starting from `first`, and perhaps answers are fresh. */
  datatype Terms = Terms(first: Quorum, freshOnly: bool)

  ghost predicate Meets(terms: Terms, st: State, step: Step) {
    Asked(terms.first, st, step) && (terms.freshOnly ==> FreshStep(st, step))
  }

  ghost predicate MeetsRun(terms: Terms, st: State, steps: seq<Step>)
    requires Exec(st, steps).Some?
    decreases |steps|
  {
    steps == [] || (Meets(terms, st, steps[0]) && MeetsRun(terms, Apply(st, steps[0]), steps[1..]))
  }

  ghost predicate Leads(terms: Terms, st: State, steps: seq<Step>, st': State) {
    Exec(st, steps) == Some(st') && MeetsRun(terms, st, steps)
  }

  ghost predicate Reach(terms: Terms, st: State, st': State) {
    exists steps: seq<Step> :: Leads(terms, st, steps, st')
  }

  lemma {:induction false} LeadsOn(terms: Terms, st: State, steps: seq<Step>, st1: State, more: seq<Step>, st2: State)
    requires Leads(terms, st, steps, st1) && Leads(terms, st1, more, st2)
    ensures Leads(terms, st, steps + more, st2)
    decreases |steps|
  {
    if steps == [] {
      assert steps + more == more;
    } else {
      var all := steps + more;
      assert all[0] == steps[0] && all[1..] == steps[1..] + more;
      LeadsOn(terms, Apply(st, steps[0]), steps[1..], st1, more, st2);
    }
  }

  lemma ReachThen(terms: Terms, st: State, st1: State, st2: State)
    requires Reach(terms, st, st1) && Reach(terms, st1, st2)
    ensures Reach(terms, st, st2)
  {
    var steps :| Leads(terms, st, steps, st1);
    var more :| Leads(terms, st1, more, st2);
    LeadsOn(terms, st, steps, st1, more, st2);
  }

  lemma ReachStep(terms: Terms, st: State, st1: State, step: Step)
    requires Reach(terms, st, st1) && Enabled(st1, step) && Meets(terms, st1, step)
    ensures Reach(terms, st, Apply(st1, step))
  {
    var st2 := Apply(st1, step);
    assert [step][1..] == [];
    assert Leads(terms, st1, [step], st2);
    ReachThen(terms, st, st1, st2);
  }

  lemma ReachNow(terms: Terms, st: State)
    ensures Reach(terms, st, st)
  {
    assert Leads(terms, st, [], st);
  }

  /** Attempts other than `b` are as they were, and `b` is the only one that may be new. */
  ghost predicate OthersKept(st: State, b: Proposal, st': State) {
    && st'.attempts.Keys == st.attempts.Keys + {b}
    && forall c :: c in st.attempts && c != b ==> st'.attempts[c] == st.attempts[c]
  }

  /** Attempt `b` sent nothing yet. */
  predicate Opened(st: State, b: Proposal, q: Quorum, v: Value) {
    b in st.attempts && st.attempts[b] == New(q, v)
  }

  lemma ReachOpened(terms: Terms, st: State, b: Proposal, q: Quorum, v: Value) returns (st': State)
    requires b !in st.attempts && InForce(terms.first, st.outcomes, b.version, q)
    ensures Reach(terms, st, st') && Opened(st', b, q, v) && OthersKept(st, b, st')
    ensures st'.servers == st.servers && st'.outcomes == st.outcomes
  {
    ReachNow(terms, st);
    ReachStep(terms, st, st, Start(b, q, v));
    st' := Apply(st, Start(b, q, v));
  }

  /** What `s` answers to the proposal of ballot `b`. */
  function Answer(q: Quorum, st: State, b: Proposal, s: ServerId): Result<Response, Error>
    requires s in st.servers
  {
    Propose(st.servers[s], q, b).1
  }

  /** All of `x` answer, with fresh reports if the terms ask for that. */
  predicate Answers(terms: Terms, q: Quorum, st: State, b: Proposal, x: set<ServerId>) {
    && x <= st.servers.Keys && x <= q
    && (forall s :: s in x ==> Answer(q, st, b, s).Ok?)
    && (terms.freshOnly ==> forall s :: s in x ==> FreshAnswer(q, st, b, s))
  }

  predicate FreshAnswer(q: Quorum, st: State, b: Proposal, s: ServerId)
    requires s in st.servers
  {
    var server, r := st.servers[s], Answer(q, st, b, s);
    r.Ok? && r.value.value.Some? && server.HasAccepted() ==> r.value.proposal == Some(server.TheAccepted().proposal)
  }

  /** `st1` follows `st` once all of `x` answered the proposal of the attempt `b`. */
  ghost predicate Proposed(
    terms: Terms, q: Quorum, st: State, b: Proposal, v: Value, x: set<ServerId>, st1: State)
    requires Answers(terms, q, st, b, x)
  {
    && st1.servers.Keys == st.servers.Keys
    && (forall s :: s in st.servers ==>
          st1.servers[s] == if s in x then Propose(st.servers[s], q, b).0 else st.servers[s])
    && OthersKept(st, b, st1)
    && st1.outcomes == st.outcomes
    && var a := st1.attempts[b];
       && a.quorum == q && a.value == v && a.phase.Proposing? && !a.conflicted && a.acks == {} && a.confirms == {}
       && a.responses.Keys == x
       && forall s :: s in x ==> a.responses[s] == Answer(q, st, b, s).value
  }

  lemma ProposedOneMore(
    terms: Terms, q: Quorum, st: State, b: Proposal, v: Value, x: set<ServerId>, s: ServerId, st0: State)
    requires Answers(terms, q, st, b, x) && s in x
    requires Answers(terms, q, st, b, x - {s}) && Proposed(terms, q, st, b, v, x - {s}, st0)
    ensures Enabled(st0, SendPropose(b, s, true)) && Meets(terms, st0, SendPropose(b, s, true))
    ensures Proposed(terms, q, st, b, v, x, Apply(st0, SendPropose(b, s, true)))
  {
    var st1 := Apply(st0, SendPropose(b, s, true));
    assert st0.servers[s] == st.servers[s];
    assert st1.attempts[b].responses == st0.attempts[b].responses[s := Answer(q, st, b, s).value];
  }

  lemma {:induction false} ReachProposed(
    terms: Terms, q: Quorum, st: State, b: Proposal, v: Value, x: set<ServerId>) returns (st1: State)
    requires Answers(terms, q, st, b, x) && Opened(st, b, q, v)
    ensures Reach(terms, st, st1) && Proposed(terms, q, st, b, v, x, st1)
    decreases |x|
  {
    if x == {} {
      ReachNow(terms, st);
      st1 := st;
    } else {
      var s := Member(x);
      var st0 := ReachProposed(terms, q, st, b, v, x - {s});
      ProposedOneMore(terms, q, st, b, v, x, s, st0);
      ReachStep(terms, st, st0, SendPropose(b, s, true));
      st1 := Apply(st0, SendPropose(b, s, true));
    }
  }

  predicate Votes(q: Quorum, st: State, b: Proposal, v: Value, y: set<ServerId>) {
    forall s :: s in y ==> s in st.servers && Accept(st.servers[s], q, b, v).1 == Ok(b)
  }

  /** `st1` follows `st` once all of `y` accepted at `b`. */
  ghost predicate Voted(st: State, b: Proposal, y: set<ServerId>, st1: State)
    requires b in st.attempts
  {
    var a := st.attempts[b];
    && st1.servers.Keys == st.servers.Keys
    && (forall s :: s in st.servers ==>
          st1.servers[s] == if s in y then Accept(st.servers[s], a.quorum, b, a.value).0 else st.servers[s])
    && OthersKept(st, b, st1)
    && st1.outcomes == st.outcomes
    && var a1 := st1.attempts[b];
       && a1.quorum == a.quorum && a1.value == a.value && a1.phase == a.phase && a1.conflicted == a.conflicted
       && a1.responses == a.responses && a1.acks == a.acks + y && a1.confirms == a.confirms
  }

  lemma VotedOneMore(st: State, b: Proposal, y: set<ServerId>, s: ServerId, st0: State)
    requires b in st.attempts && st.attempts[b].phase.Accepting? && Voted(st, b, y - {s}, st0)
    requires s in y && s in st.attempts[b].responses
    requires s in st.servers && Accept(st.servers[s], st.attempts[b].quorum, b, st.attempts[b].value).1 == Ok(b)
    ensures Enabled(st0, SendAccept(b, s, true))
    ensures Voted(st, b, y, Apply(st0, SendAccept(b, s, true)))
  {
  }

  lemma {:induction false} ReachVoted(terms: Terms, st: State, b: Proposal, y: set<ServerId>) returns (st1: State)
    requires b in st.attempts && st.attempts[b].phase.Accepting?
    requires y <= st.attempts[b].responses.Keys && Votes(st.attempts[b].quorum, st, b, st.attempts[b].value, y)
    ensures Reach(terms, st, st1) && Voted(st, b, y, st1)
    decreases |y|
  {
    if y == {} {
      ReachNow(terms, st);
      st1 := st;
    } else {
      var s := Member(y);
      var st0 := ReachVoted(terms, st, b, y - {s});
      VotedOneMore(st, b, y, s, st0);
      ReachStep(terms, st, st0, SendAccept(b, s, true));
      st1 := Apply(st0, SendAccept(b, s, true));
    }
  }

  /** The answers of a majority `x` let attempt `b` go on, with the value of `pick`. */
  ghost predicate Lets(
    terms: Terms, q: Quorum, st: State, b: Proposal, x: set<ServerId>, pick: Option<ServerId>)
    requires Answers(terms, q, st, b, x)
  {
    && Majority(x, q)
    && (forall s :: s in x ==>
          var r := Answer(q, st, b, s).value;
          && Positive(b, r) && !r.confirmed
          && (pick.None? ==> r.value.None?)
          && (r.value.Some? ==> r.proposal.Some?))
    && (pick.Some? ==>
          && pick.value in x
          && var r := Answer(q, st, b, pick.value).value;
             && r.value.Some?
             && forall t :: t in x && Answer(q, st, b, t).value.value.Some? ==>
                  !Less(r.proposal.value, Answer(q, st, b, t).value.proposal.value))
  }

  lemma AnswersDecide(
    terms: Terms, q: Quorum, st: State, b: Proposal, own: Value, x: set<ServerId>, pick: Option<ServerId>, st1: State)
    requires Answers(terms, q, st, b, x) && Proposed(terms, q, st, b, own, x, st1) && Lets(terms, q, st, b, x, pick)
    ensures MayDecide(b, st1.attempts[b], pick)
  {
    var a := st1.attempts[b];
    assert forall s :: s in x ==> a.responses[s] == Answer(q, st, b, s).value;
  }

  /** Attempt `b` heard from `x` and is about to ask for `v` to be accepted. */
  predicate Ready(st: State, b: Proposal, q: Quorum, v: Value, x: set<ServerId>) {
    && b in st.attempts
    && var a := st.attempts[b];
       && a.quorum == q && a.phase.Accepting? && a.value == v && !a.conflicted
       && a.acks == {} && a.confirms == {} && a.responses.Keys == x
  }

  /** Attempt `b` knows that all of `y` accepted `v`, and is about to have it confirmed. */
  predicate Committed(st: State, b: Proposal, q: Quorum, v: Value, y: set<ServerId>) {
    && b in st.attempts
    && var a := st.attempts[b];
       a.quorum == q && a.phase.Confirming? && a.value == v && a.acks == y && a.confirms == {}
  }

  /** All of `x` answer, and the client goes on with value `v`. */
  lemma ReachDecided(
    terms: Terms, q: Quorum, st: State, b: Proposal, own: Value, x: set<ServerId>, pick: Option<ServerId>, v: Value)
    returns (st2: State)
    requires Answers(terms, q, st, b, x) && Opened(st, b, q, own)
    requires Lets(terms, q, st, b, x, pick)
    requires v == if pick.Some? then Answer(q, st, b, pick.value).value.value.value else own
    ensures Reach(terms, st, st2) && OthersKept(st, b, st2) && st2.outcomes == st.outcomes
    ensures st2.servers.Keys == st.servers.Keys
    ensures forall s :: s in st.servers ==>
              st2.servers[s] == if s in x then Propose(st.servers[s], q, b).0 else st.servers[s]
    ensures Ready(st2, b, q, v, x)
  {
    var st1 := ReachProposed(terms, q, st, b, own, x);
    AnswersDecide(terms, q, st, b, own, x, pick, st1);
    ReachStep(terms, st, st1, Decide(b, pick));
    st2 := Apply(st1, Decide(b, pick));
  }

  /** All of `y` accept, and the client goes on to have the value confirmed when `y` is a majority. */
  lemma ReachCommitted(
    terms: Terms, q: Quorum, st: State, b: Proposal, v: Value, x: set<ServerId>, y: set<ServerId>)
    returns (st': State)
    requires Ready(st, b, q, v, x) && y <= x && Votes(q, st, b, v, y)
    ensures Reach(terms, st, st') && OthersKept(st, b, st') && st'.outcomes == st.outcomes
    ensures st'.servers.Keys == st.servers.Keys
    ensures forall s :: s in st.servers ==>
              st'.servers[s] == if s in y then Accept(st.servers[s], q, b, v).0 else st.servers[s]
    ensures b in st'.attempts && st'.attempts[b].quorum == q
    ensures Majority(y, q) ==> Committed(st', b, q, v, y)
  {
    st' := ReachVoted(terms, st, b, y);
    assert st'.attempts[b].acks == y;
    if Majority(y, q) {
      ReachStep(terms, st, st', Commit(b));
      st' := Apply(st', Commit(b));
    }
  }

  predicate Confirms(q: Quorum, st: State, b: Proposal, y: set<ServerId>) {
    forall s :: s in y ==> s in st.servers && Confirm(st.servers[s], q, b).1.Ok?
  }

  /** `st1` follows `st` once all of `y` confirmed to `b`. */
  ghost predicate Confirmed(st: State, b: Proposal, y: set<ServerId>, st1: State)
    requires b in st.attempts
  {
    var a := st.attempts[b];
    && st1.servers.Keys == st.servers.Keys
    && (forall s :: s in st.servers ==>
          st1.servers[s] == if s in y then Confirm(st.servers[s], a.quorum, b).0 else st.servers[s])
    && OthersKept(st, b, st1)
    && st1.outcomes == st.outcomes
    && st1.attempts[b] == a.(confirms := a.confirms + y)
  }

  lemma ConfirmedOneMore(st: State, b: Proposal, y: set<ServerId>, s: ServerId, st0: State)
    requires b in st.attempts && st.attempts[b].phase.Confirming? && Confirmed(st, b, y - {s}, st0)
    requires s in y && s in st.attempts[b].acks
    requires s in st.servers && Confirm(st.servers[s], st.attempts[b].quorum, b).1.Ok?
    ensures Enabled(st0, SendConfirm(b, s, true))
    ensures Confirmed(st, b, y, Apply(st0, SendConfirm(b, s, true)))
  {
    assert (y - {s}) + {s} == y;
  }

  lemma {:induction false} ReachConfirmed(terms: Terms, st: State, b: Proposal, y: set<ServerId>) returns (st1: State)
    requires b in st.attempts && st.attempts[b].phase.Confirming?
    requires y <= st.attempts[b].acks && Confirms(st.attempts[b].quorum, st, b, y)
    ensures Reach(terms, st, st1) && Confirmed(st, b, y, st1)
    decreases |y|
  {
    if y == {} {
      ReachNow(terms, st);
      st1 := st;
    } else {
      var s := Member(y);
      var st0 := ReachConfirmed(terms, st, b, y - {s});
      ConfirmedOneMore(st, b, y, s, st0);
      ReachStep(terms, st, st0, SendConfirm(b, s, true));
      st1 := Apply(st0, SendConfirm(b, s, true));
    }
  }

  /** All of `y` confirm, and the call returns the value of its attempt. */
  lemma ReachReturned(terms: Terms, q: Quorum, st: State, b: Proposal, v: Value, y: set<ServerId>)
    returns (st': State)
    requires Committed(st, b, q, v, y) && Majority(y, q) && Confirms(q, st, b, y)
    ensures Reach(terms, st, st') && OthersKept(st, b, st')
    ensures st'.servers.Keys == st.servers.Keys
    ensures forall s :: s in st.servers ==>
              st'.servers[s] == if s in y then Confirm(st.servers[s], q, b).0 else st.servers[s]
    ensures b in st'.attempts && st'.attempts[b].quorum == q
    ensures st'.outcomes == st.outcomes + {Outcome(b.version, v)}
  {
    st' := ReachConfirmed(terms, st, b, y);
    assert st'.attempts[b].confirms == y;
    ReachStep(terms, st, st', Return(b));
    st' := Apply(st', Return(b));
  }
}
