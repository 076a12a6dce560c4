/**
 The first stages of the run in which two calls return different decisions: one
 server accepted the value of the first client, the others that of the second,
 and a third client then reaches the one server alone.
 */
module PaxosStages {
  import opened Options
  import opened PaxosServer
  import opened PaxosProtocol
  import opened PaxosReconfiguration
  import opened PaxosRuns

  /** The callers of these runs name the quorum of the servers, and no more is asked of them. */
  function Plain(q: Quorum): Terms {
    Terms(q, false)
  }

  /** The first ballot of client `n`. */
  function Ballot(n: int): Proposal {
    Proposal(0, 1, n)
  }

  /** A new attempt of a caller, up to the decision to go on with value `v`. */
  lemma ReachAsked(
    q: Quorum, st: State, b: Proposal, own: Value, x: set<ServerId>, pick: Option<ServerId>, v: Value)
    returns (st2: State)
    requires Answers(Plain(q), q, st, b, x) && b !in st.attempts && b.version == 0
    requires Lets(Plain(q), q, st, b, x, pick)
    requires v == if pick.Some? then Answer(q, st, b, pick.value).value.value.value else own
    ensures Reach(Plain(q), st, st2) && OthersKept(st, b, st2) && st2.outcomes == st.outcomes
    ensures st2.servers.Keys == st.servers.Keys
    ensures forall s :: s in st.servers ==>
              st2.servers[s] == if s in x then Propose(st.servers[s], q, b).0 else st.servers[s]
    ensures Ready(st2, b, q, v, x)
  {
    var st1 := ReachOpened(Plain(q), st, b, q, own);
    assert Answers(Plain(q), q, st1, b, x) && Lets(Plain(q), q, st1, b, x, pick);
    st2 := ReachDecided(Plain(q), q, st1, b, own, x, pick, v);
    ReachThen(Plain(q), st, st1, st2);
  }

  /** A server of quorum `q` that promised ballot `n` and accepted `accepted`. */
  function At(q: Quorum, n: int, accepted: Option<Accepted>): ServerState {
    ServerState(q, None, false, Some(VersionState(Ballot(n), accepted)))
  }

  function AcceptedAt(n: int, d: int): Option<Accepted> {
    Some(Accepted(Ballot(n), Datum(d), false))
  }

  /** The state of a stage of the run: server `s` alone differs from the others. */
  ghost predicate Stage(
    q: Quorum, st: State, s: ServerId, one: ServerState, others: ServerState, n: int, outcomes: set<Outcome>)
  {
    && st.servers.Keys == q
    && (forall t :: t in q ==> st.servers[t] == if t == s then one else others)
    && (forall b :: b in st.attempts ==> b.sender <= n && st.attempts[b].quorum == q)
    && st.outcomes == outcomes
  }

  lemma ProposeAt(q: Quorum, n: int, accepted: Option<Accepted>, m: int)
    requires n < m && (accepted.Some? ==> accepted.value.proposal.version == 0)
    ensures Propose(At(q, n, accepted), q, Ballot(m)) ==
              (At(q, m, accepted),
               Ok(if accepted.None? then Response(None, None, false)
                  else Response(Some(Ballot(n)), Some(accepted.value.value), accepted.value.confirmed)))
  {
  }

  lemma AcceptAt(q: Quorum, n: int, accepted: Option<Accepted>, d: int)
    requires accepted.Some? ==> !accepted.value.confirmed && accepted.value.value.Datum?
    ensures Accept(At(q, n, accepted), q, Ballot(n), Datum(d)) == (At(q, n, AcceptedAt(n, d)), Ok(Ballot(n)))
  {
  }

  /** A server confirms the value it holds, whichever earlier ballot asks. */
  lemma ConfirmAt(q: Quorum, n: int, d: int, confirmed: bool, m: int)
    requires m <= n
    ensures Confirm(At(q, n, Some(Accepted(Ballot(n), Datum(d), confirmed))), q, Ballot(m)) ==
              (At(q, n, Some(Accepted(Ballot(n), Datum(d), true))), Ok(()))
  {
  }

  /** Every server answers the first client. */
  lemma FirstProposal(q: Quorum, s: ServerId) returns (st: State)
    requires s in q && |q| >= 3
    ensures Reach(Plain(q), InitOf(q), st) && Stage(q, st, s, At(q, 1, None), At(q, 1, None), 1, {})
    ensures Ready(st, Ballot(1), q, Datum(1), q)
  {
    st := ReachAsked(q, InitOf(q), Ballot(1), Datum(1), q, None, Datum(1));
  }

  /** Only `s` accepts its value. */
  lemma FirstAcceptance(q: Quorum, s: ServerId, st: State) returns (st': State)
    requires s in q && |q| >= 3 && Stage(q, st, s, At(q, 1, None), At(q, 1, None), 1, {})
    requires Ready(st, Ballot(1), q, Datum(1), q)
    ensures Reach(Plain(q), st, st') && Stage(q, st', s, At(q, 1, AcceptedAt(1, 1)), At(q, 1, None), 1, {})
  {
    AcceptAt(q, 1, None, 1);
    st' := ReachCommitted(Plain(q), q, st, Ballot(1), Datum(1), q, {s});
  }

  /** What the servers other than `s` answer to the second client. */
  lemma SecondAnswers(q: Quorum, s: ServerId, st: State)
    requires s in q && |q| >= 3 && Stage(q, st, s, At(q, 1, AcceptedAt(1, 1)), At(q, 1, None), 1, {})
    ensures Answers(Plain(q), q, st, Ballot(2), q - {s}) && Lets(Plain(q), q, st, Ballot(2), q - {s}, None)
    ensures Ballot(2) !in st.attempts
  {
    ProposeAt(q, 1, None, 2);
    assert forall t :: t in q - {s} ==> Answer(q, st, Ballot(2), t) == Ok(Response(None, None, false));
  }

  /** The servers once they answered the second client. */
  lemma SecondStage(q: Quorum, s: ServerId, st: State, st': State)
    requires s in q && OthersKept(st, Ballot(2), st') && st'.attempts[Ballot(2)].quorum == q && st'.outcomes == {}
    requires Stage(q, st, s, At(q, 1, AcceptedAt(1, 1)), At(q, 1, None), 1, {})
    requires st'.servers.Keys == q && st'.servers[s] == st.servers[s]
    requires forall t :: t in q - {s} ==> st'.servers[t] == Propose(st.servers[t], q, Ballot(2)).0
    ensures Stage(q, st', s, At(q, 1, AcceptedAt(1, 1)), At(q, 2, None), 2, {})
  {
    ProposeAt(q, 1, None, 2);
  }

  /** The second client reaches everyone but `s` and sees no value. */
  lemma SecondProposal(q: Quorum, s: ServerId, st: State) returns (st': State)
    requires s in q && |q| >= 3 && Stage(q, st, s, At(q, 1, AcceptedAt(1, 1)), At(q, 1, None), 1, {})
    ensures Reach(Plain(q), st, st') && Stage(q, st', s, At(q, 1, AcceptedAt(1, 1)), At(q, 2, None), 2, {})
    ensures Ready(st', Ballot(2), q, Datum(2), q - {s})
  {
    SecondAnswers(q, s, st);
    st' := ReachAsked(q, st, Ballot(2), Datum(2), q - {s}, None, Datum(2));
    SecondStage(q, s, st, st');
  }

  /** They all accept the second value; the second client has yet to ask for confirmations. */
  lemma SecondAcceptance(q: Quorum, s: ServerId, st: State) returns (st': State)
    requires s in q && |q| >= 3 && Stage(q, st, s, At(q, 1, AcceptedAt(1, 1)), At(q, 2, None), 2, {})
    requires Ready(st, Ballot(2), q, Datum(2), q - {s})
    ensures Reach(Plain(q), st, st')
    ensures Stage(q, st', s, At(q, 1, AcceptedAt(1, 1)), At(q, 2, AcceptedAt(2, 2)), 2, {})
    ensures Committed(st', Ballot(2), q, Datum(2), q - {s})
  {
    AcceptAt(q, 2, None, 2);
    st' := ReachCommitted(Plain(q), q, st, Ballot(2), Datum(2), q - {s}, q - {s});
  }

  /** The third client reaches `s` alone. */
  lemma ThirdProposal(q: Quorum, s: ServerId, st: State) returns (st': State)
    requires s in q && |q| >= 3
    requires Stage(q, st, s, At(q, 1, AcceptedAt(1, 1)), At(q, 2, AcceptedAt(2, 2)), 2, {})
    requires Committed(st, Ballot(2), q, Datum(2), q - {s})
    ensures Reach(Plain(q), st, st')
    ensures Stage(q, st', s, At(q, 3, AcceptedAt(1, 1)), At(q, 2, AcceptedAt(2, 2)), 3, {})
    ensures Committed(st', Ballot(2), q, Datum(2), q - {s})
  {
    ProposeAt(q, 1, AcceptedAt(1, 1), 3);
    var st0 := ReachOpened(Plain(q), st, Ballot(3), q, Datum(3));
    st' := ReachProposed(Plain(q), q, st0, Ballot(3), Datum(3), {s});
    ReachThen(Plain(q), st, st0, st');
  }
}
