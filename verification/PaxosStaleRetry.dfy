/**
 An attempt that is refused by a later version goes on at that version and keeps
 the quorum of its client, which need not be in force there. A server that
 missed a version does not check quorums, so such an attempt can succeed on the
 servers of a former quorum. The run below has two calls return different
 decisions that way, though each caller named the quorum in force for the
 version it asked for and every answer names the ballot of its value.
 */
module PaxosStaleRetry {
  import opened Options
  import opened PaxosServer
  import opened PaxosProtocol
  import opened PaxosReconfiguration
  import opened PaxosRuns
  import opened PaxosCalls

  /** Servers 1, 2 and 3 hand over to 2, 4 and 5. */
  const OLD: Quorum := {1, 2, 3}
  const NEW: Quorum := {2, 4, 5}
  const ALL: Quorum := {1, 2, 3, 4, 5}

  const INITIAL: map<ServerId, Quorum> := map[1 := OLD, 2 := OLD, 3 := OLD, 4 := NEW, 5 := NEW]

  /** Callers name the quorum in force, and answers are fresh. */
  const TERMS := Terms(OLD, true)

  function Idle(q: Quorum): ServerState {
    ServerState(q, None, false, None)
  }

  /** A server that is not behind, and what it promised and accepted. */
  function Holding(q: Quorum, value: Option<int>, p: Proposal, accepted: Option<Accepted>): ServerState {
    ServerState(q, value, false, Some(VersionState(p, accepted)))
  }

  /** A server that missed a version. */
  function Behind(p: Proposal, accepted: Option<Accepted>): ServerState {
    ServerState(OLD, None, true, Some(VersionState(p, accepted)))
  }

  predicate Servers(
    st: State, one: ServerState, two: ServerState, three: ServerState, four: ServerState, five: ServerState)
  {
    && st.servers.Keys == ALL
    && st.servers[1] == one && st.servers[2] == two && st.servers[3] == three
    && st.servers[4] == four && st.servers[5] == five
  }

  /** Only the first `n` clients made attempts. */
  predicate Clients(st: State, n: int) {
    forall b :: b in st.attempts ==> b.sender <= n
  }

  const ELECTION := Proposal(0, 1, 1)
  const DATUM := Proposal(1, 1, 2)
  const PARTIAL := Proposal(2, 1, 3)
  const DECIDED := Proposal(2, 1, 4)
  const LATE := Proposal(0, 1, 5)
  const RETRIED := Proposal(2, 2, 5)

  function Elected(): ServerState {
    Holding(OLD, None, ELECTION, Some(Accepted(ELECTION, Election(NEW), true)))
  }

  function Settled(): ServerState {
    Holding(NEW, None, DATUM, Some(Accepted(DATUM, Datum(0), true)))
  }

  const ELECTED := Outcome(0, Election(NEW))
  const SETTLED := Outcome(1, Datum(0))

  lemma ElectedInForce(outcomes: set<Outcome>)
    requires ELECTED in outcomes
    ensures InForce(OLD, outcomes, 1, NEW)
  {
  }

  lemma StillInForce(outcomes: set<Outcome>)
    requires ELECTED in outcomes && SETTLED in outcomes
    ensures InForce(OLD, outcomes, 2, NEW)
  {
    ElectedInForce(outcomes);
  }

  lemma TwoOfThree(x: set<ServerId>, q: Quorum)
    requires |x| == 2 && |q| == 3
    ensures Majority(x, q)
  {
  }

  /** The old quorum elects the new one; server 1 hears nothing of it. */
  lemma FirstElection() returns (st: State)
    ensures Reach(TERMS, Init(INITIAL), st) && Clients(st, 1) && st.outcomes == {ELECTED}
    ensures Servers(st, Idle(OLD), Elected(), Elected(), Idle(NEW), Idle(NEW))
  {
    var start := Init(INITIAL);
    assert Serves(Idle(OLD), OLD, ELECTION, Election(NEW));
    TwoOfThree({2, 3}, OLD);
    st := ReachAnswered(TERMS, OLD, start, ELECTION, Election(NEW), {2, 3});
  }

  /** The new quorum decides on version 1; server 2 hears nothing of it. */
  lemma SecondVersion(st: State) returns (st': State)
    requires Clients(st, 1) && st.outcomes == {ELECTED}
    requires Servers(st, Idle(OLD), Elected(), Elected(), Idle(NEW), Idle(NEW))
    ensures Reach(TERMS, st, st') && Clients(st', 2) && st'.outcomes == {ELECTED, SETTLED}
    ensures Servers(st', Idle(OLD), Elected(), Elected(), Settled(), Settled())
  {
    ElectedInForce(st.outcomes);
    assert Serves(Idle(NEW), NEW, DATUM, Datum(0));
    TwoOfThree({4, 5}, NEW);
    st' := ReachAnswered(TERMS, NEW, st, DATUM, Datum(0), {4, 5});
  }

  /** Server 2, on version 2, has accepted what the third client wanted. */
  function Ahead(): ServerState {
    Behind(PARTIAL, Some(Accepted(PARTIAL, Datum(1), false)))
  }

  /** Server 4 promised version 2 to the third client. */
  function Moved(): ServerState {
    Holding(NEW, Some(0), PARTIAL, None)
  }

  lemma PartialPromises()
    ensures Propose(Elected(), NEW, PARTIAL) == (Behind(PARTIAL, None), Ok(PROMISE))
    ensures Propose(Settled(), NEW, PARTIAL) == (Moved(), Ok(PROMISE))
    ensures Accept(Behind(PARTIAL, None), NEW, PARTIAL, Datum(1)) == (Ahead(), Ok(PARTIAL))
  {
  }

  /** On version 2, a third client reaches servers 2 and 4. */
  lemma ThirdProposal(st: State) returns (st': State)
    requires Clients(st, 2) && st.outcomes == {ELECTED, SETTLED}
    requires Servers(st, Idle(OLD), Elected(), Elected(), Settled(), Settled())
    ensures Reach(TERMS, st, st') && Clients(st', 3)
    ensures st'.outcomes == {ELECTED, SETTLED}
    ensures Servers(st', Idle(OLD), Behind(PARTIAL, None), Elected(), Moved(), Settled())
    ensures Ready(st', PARTIAL, NEW, Datum(1), {2, 4})
  {
    StillInForce(st.outcomes);
    PartialPromises();
    TwoOfThree({2, 4}, NEW);
    st' := ReachPromised(TERMS, NEW, st, PARTIAL, Datum(1), {2, 4});
  }

  /** Only server 2 accepts its value. */
  lemma ThirdAcceptance(st: State) returns (st': State)
    requires Clients(st, 3) && st.outcomes == {ELECTED, SETTLED}
    requires Servers(st, Idle(OLD), Behind(PARTIAL, None), Elected(), Moved(), Settled())
    requires Ready(st, PARTIAL, NEW, Datum(1), {2, 4})
    ensures Reach(TERMS, st, st') && Clients(st', 3)
    ensures st'.outcomes == {ELECTED, SETTLED}
    ensures Servers(st', Idle(OLD), Ahead(), Elected(), Moved(), Settled())
  {
    PartialPromises();
    st' := ReachCommitted(TERMS, NEW, st, PARTIAL, Datum(1), {2, 4}, {2});
  }

  /** Servers 4 and 5, of which version 2 is decided. */
  function Final(): ServerState {
    Holding(NEW, Some(0), DECIDED, Some(Accepted(DECIDED, Datum(2), true)))
  }

  lemma ServedFinal()
    ensures Serves(Moved(), NEW, DECIDED, Datum(2)) && Served(Moved(), NEW, DECIDED, Datum(2)) == Final()
    ensures Serves(Settled(), NEW, DECIDED, Datum(2)) && Served(Settled(), NEW, DECIDED, Datum(2)) == Final()
  {
  }

  /** The new quorum decides otherwise: a fourth client reaches servers 4 and 5. */
  lemma Decision(st: State) returns (st': State)
    requires Clients(st, 3) && st.outcomes == {ELECTED, SETTLED}
    requires Servers(st, Idle(OLD), Ahead(), Elected(), Moved(), Settled())
    ensures Reach(TERMS, st, st') && Clients(st', 4)
    ensures st'.outcomes == {ELECTED, SETTLED, Outcome(2, Datum(2))}
    ensures Servers(st', Idle(OLD), Ahead(), Elected(), Final(), Final())
  {
    StillInForce(st.outcomes);
    ServedFinal();
    TwoOfThree({4, 5}, NEW);
    st' := ReachAnswered(TERMS, NEW, st, DECIDED, Datum(2), {4, 5});
  }

  const REFUSAL := Response(Some(PARTIAL), Some(Datum(1)), false)

  /** Attempt `LATE` heard from servers 1 and 2. */
  predicate Refused(st: State) {
    && LATE in st.attempts
    && var a := st.attempts[LATE];
       && a.quorum == OLD && a.phase.Proposing? && a.responses.Keys == {1, 2}
       && a.responses[1] == PROMISE && a.responses[2] == REFUSAL
  }

  lemma LateAnswers(st: State)
    requires Servers(st, Idle(OLD), Ahead(), Elected(), Final(), Final())
    ensures Answers(TERMS, OLD, st, LATE, {1, 2})
    ensures Propose(st.servers[1], OLD, LATE) == (Holding(OLD, None, LATE, None), Ok(PROMISE))
    ensures Propose(st.servers[2], OLD, LATE) == (Ahead(), Ok(REFUSAL))
  {
  }

  /** A fifth client asks for version 0 on the old quorum, which is in force there. Server 2 refuses. */
  lemma LateCall(st: State) returns (st': State)
    requires Clients(st, 4)
    requires Servers(st, Idle(OLD), Ahead(), Elected(), Final(), Final())
    ensures Reach(TERMS, st, st') && Refused(st') && RETRIED !in st'.attempts
    ensures st'.outcomes == st.outcomes
    ensures Servers(st', Holding(OLD, None, LATE, None), Ahead(), Elected(), Final(), Final())
  {
    var st1 := ReachOpened(TERMS, st, LATE, OLD, Datum(5));
    LateAnswers(st1);
    st' := ReachProposed(TERMS, OLD, st1, LATE, Datum(5), {1, 2});
    ReachThen(TERMS, st, st1, st');
  }

  lemma RefusedMayRetry(st: State)
    requires Refused(st)
    ensures MayRetry(LATE, st.attempts[LATE], Some(2)) && Carried(st.attempts[LATE], Some(2)) == Datum(1)
  {
    TwoOfThree({1, 2}, OLD);
    assert !Positive(LATE, st.attempts[LATE].responses[2]);
  }

  /** It goes on to version 2 with what server 2 reported, and finds servers 1 and 3 behind. */
  lemma StaleRetry(st: State) returns (st': State)
    requires Refused(st) && RETRIED !in st.attempts
    requires Servers(st, Holding(OLD, None, LATE, None), Ahead(), Elected(), Final(), Final())
    ensures Reach(TERMS, st, st') && st'.outcomes == st.outcomes + {Outcome(2, Datum(1))}
  {
    RefusedMayRetry(st);
    var retry := Retry(RETRIED, LATE, Some(2));
    ReachNow(TERMS, st);
    ReachStep(TERMS, st, st, retry);
    var st1 := Apply(st, retry);
    assert Serves(Holding(OLD, None, LATE, None), OLD, RETRIED, Datum(1)) && Serves(Elected(), OLD, RETRIED, Datum(1));
    TwoOfThree({1, 3}, OLD);
    st' := ReachServed(TERMS, OLD, st1, RETRIED, Datum(1), {1, 3});
    ReachThen(TERMS, st, st1, st');
  }

  /** The run up to the decision of the new quorum on version 2. */
  lemma RunToDecision() returns (st: State)
    ensures Reach(TERMS, Init(INITIAL), st) && Clients(st, 4)
    ensures st.outcomes == {ELECTED, SETTLED, Outcome(2, Datum(2))}
    ensures Servers(st, Idle(OLD), Ahead(), Elected(), Final(), Final())
  {
    var start := Init(INITIAL);
    var st1 := FirstElection();
    var st2 := SecondVersion(st1);
    ReachThen(TERMS, start, st1, st2);
    var st3 := ThirdProposal(st2);
    ReachThen(TERMS, start, st2, st3);
    var st4 := ThirdAcceptance(st3);
    ReachThen(TERMS, start, st3, st4);
    st := Decision(st4);
    ReachThen(TERMS, start, st4, st);
  }

  /** The whole run. */
  lemma RunToDisagreement() returns (st: State)
    ensures Reach(TERMS, Init(INITIAL), st)
    ensures Outcome(2, Datum(1)) in st.outcomes && Outcome(2, Datum(2)) in st.outcomes
  {
    var st1 := RunToDecision();
    var st2 := LateCall(st1);
    ReachThen(TERMS, Init(INITIAL), st1, st2);
    st := StaleRetry(st2);
    ReachThen(TERMS, Init(INITIAL), st2, st);
  }

  /** Every caller of the run names the quorum in force for the version it asks for. */
  ghost predicate AskedRun(first: Quorum, st: State, steps: seq<Step>)
    requires Exec(st, steps).Some?
    decreases |steps|
  {
    steps == [] || (Asked(first, st, steps[0]) && AskedRun(first, Apply(st, steps[0]), steps[1..]))
  }

  lemma {:induction false} TermsMet(terms: Terms, st: State, steps: seq<Step>)
    requires Exec(st, steps).Some? && MeetsRun(terms, st, steps)
    ensures AskedRun(terms.first, st, steps) && (terms.freshOnly ==> FreshRun(st, steps))
    decreases |steps|
  {
    if steps != [] {
      TermsMet(terms, Apply(st, steps[0]), steps[1..]);
    }
  }

  /** Naming the quorum in force when calling is not enough for agreement across changes of quorum. */
  lemma StaleRetryDisagrees()
    ensures exists steps: seq<Step> ::
              && Exec(Init(INITIAL), steps).Some?
              && AskedRun(OLD, Init(INITIAL), steps) && FreshRun(Init(INITIAL), steps)
              && !Agreement(Exec(Init(INITIAL), steps).value)
  {
    var st := RunToDisagreement();
    var steps :| Leads(TERMS, Init(INITIAL), steps, st);
    TermsMet(TERMS, Init(INITIAL), steps);
    assert !Agreement(st) by {
      assert Outcome(2, Datum(1)).value != Outcome(2, Datum(2)).value;
    }
  }
}
