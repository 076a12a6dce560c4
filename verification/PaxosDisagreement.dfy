/**
 On every quorum of three servers or more, the protocol has a run in which two
 calls of `choose` return different decisions for the same version. Together
 with the proof for small quorums this says exactly when agreement is guaranteed.

 The run needs one server that promised a later ballot after it accepted: it
 then reports its old value under the later ballot, and that value wins over
 the one that a majority accepted in between. The confirmation round does not
 prevent it: the servers confirm whatever they hold, so the client whose value
 was replaced is told that its decision was confirmed.
 */
module PaxosDisagreement {
  import opened Options
  import opened PaxosServer
  import opened PaxosProtocol
  import opened PaxosSafety
  import opened PaxosReconfiguration
  import opened PaxosRuns
  import opened Sets
  import opened PaxosStages

  /** What the servers answer to the fourth client lets it go on with the value of `s`. */
  lemma FourthAnswers(q: Quorum, s: ServerId, st: State)
    requires s in q && |q| >= 3
    requires Stage(q, st, s, At(q, 3, AcceptedAt(1, 1)), At(q, 2, AcceptedAt(2, 2)), 3, {})
    ensures Answers(Plain(q), q, st, Ballot(4), q) && Lets(Plain(q), q, st, Ballot(4), q, Some(s))
    ensures Answer(q, st, Ballot(4), s).value.value == Some(Datum(1))
    ensures Ballot(4) !in st.attempts
  {
    ProposeAt(q, 3, AcceptedAt(1, 1), 4);
    ProposeAt(q, 2, AcceptedAt(2, 2), 4);
    assert forall t :: t in q ==>
      Answer(q, st, Ballot(4), t) ==
        Ok(if t == s then Response(Some(Ballot(3)), Some(Datum(1)), false)
           else Response(Some(Ballot(2)), Some(Datum(2)), false));
  }

  /** The servers once they answered the fourth client. */
  lemma FourthStage(q: Quorum, s: ServerId, st: State, st': State)
    requires s in q && OthersKept(st, Ballot(4), st') && st'.attempts[Ballot(4)].quorum == q && st'.outcomes == {}
    requires Stage(q, st, s, At(q, 3, AcceptedAt(1, 1)), At(q, 2, AcceptedAt(2, 2)), 3, {})
    requires st'.servers.Keys == q && forall t :: t in q ==> st'.servers[t] == Propose(st.servers[t], q, Ballot(4)).0
    ensures Stage(q, st', s, At(q, 4, AcceptedAt(1, 1)), At(q, 4, AcceptedAt(2, 2)), 4, {})
  {
    ProposeAt(q, 3, AcceptedAt(1, 1), 4);
    ProposeAt(q, 2, AcceptedAt(2, 2), 4);
  }

  /** The fourth client hears of the value of `s` under ballot 3 and of the chosen value under ballot 2. */
  lemma FourthProposal(q: Quorum, s: ServerId, st: State) returns (st': State)
    requires s in q && |q| >= 3
    requires Stage(q, st, s, At(q, 3, AcceptedAt(1, 1)), At(q, 2, AcceptedAt(2, 2)), 3, {})
    requires Committed(st, Ballot(2), q, Datum(2), q - {s})
    ensures Reach(Plain(q), st, st')
    ensures Stage(q, st', s, At(q, 4, AcceptedAt(1, 1)), At(q, 4, AcceptedAt(2, 2)), 4, {})
    ensures Ready(st', Ballot(4), q, Datum(1), q)
    ensures Committed(st', Ballot(2), q, Datum(2), q - {s})
  {
    FourthAnswers(q, s, st);
    st' := ReachAsked(q, st, Ballot(4), Datum(4), q, Some(s), Datum(1));
    FourthStage(q, s, st, st');
  }

  /** They all accept the first value. */
  lemma FourthAcceptance(q: Quorum, s: ServerId, st: State) returns (st': State)
    requires s in q && |q| >= 3
    requires Stage(q, st, s, At(q, 4, AcceptedAt(1, 1)), At(q, 4, AcceptedAt(2, 2)), 4, {})
    requires Ready(st, Ballot(4), q, Datum(1), q) && Committed(st, Ballot(2), q, Datum(2), q - {s})
    ensures Reach(Plain(q), st, st')
    ensures Stage(q, st', s, At(q, 4, AcceptedAt(4, 1)), At(q, 4, AcceptedAt(4, 1)), 4, {})
    ensures Committed(st', Ballot(4), q, Datum(1), q) && Committed(st', Ballot(2), q, Datum(2), q - {s})
  {
    AcceptAt(q, 4, AcceptedAt(1, 1), 1);
    AcceptAt(q, 4, AcceptedAt(2, 2), 1);
    st' := ReachCommitted(Plain(q), q, st, Ballot(4), Datum(1), q, q);
  }

  /** A server that has the value of the fourth client confirmed. */
  function Held(q: Quorum): ServerState {
    At(q, 4, Some(Accepted(Ballot(4), Datum(1), true)))
  }

  /** They all confirm it, and the fourth client returns it. */
  lemma FourthReturn(q: Quorum, s: ServerId, st: State) returns (st': State)
    requires s in q && |q| >= 3
    requires Stage(q, st, s, At(q, 4, AcceptedAt(4, 1)), At(q, 4, AcceptedAt(4, 1)), 4, {})
    requires Committed(st, Ballot(4), q, Datum(1), q) && Committed(st, Ballot(2), q, Datum(2), q - {s})
    ensures Reach(Plain(q), st, st')
    ensures Stage(q, st', s, Held(q), Held(q), 4, {Outcome(0, Datum(1))})
    ensures Committed(st', Ballot(2), q, Datum(2), q - {s})
  {
    ConfirmAt(q, 4, 1, false, 4);
    st' := ReachReturned(Plain(q), q, st, Ballot(4), Datum(1), q);
  }

  /** The late confirmations of the second client are answered too, and it returns its own value. */
  lemma SecondReturn(q: Quorum, s: ServerId, st: State) returns (st': State)
    requires s in q && |q| >= 3
    requires Stage(q, st, s, Held(q), Held(q), 4, {Outcome(0, Datum(1))})
    requires Committed(st, Ballot(2), q, Datum(2), q - {s})
    ensures Reach(Plain(q), st, st') && Names(st', q)
    ensures st'.outcomes == {Outcome(0, Datum(1)), Outcome(0, Datum(2))}
  {
    ConfirmAt(q, 4, 1, true, 2);
    st' := ReachReturned(Plain(q), q, st, Ballot(2), Datum(2), q - {s});
  }

  lemma LargeQuorumsDisagree(q: Quorum)
    requires |q| >= 3
    ensures !AgreementGuaranteed(q)
  {
    var s := Member(q);
    var st0 := FirstProposal(q, s);
    var st1 := FirstAcceptance(q, s, st0);
    ReachThen(Plain(q), InitOf(q), st0, st1);
    var st2 := SecondProposal(q, s, st1);
    ReachThen(Plain(q), InitOf(q), st1, st2);
    var st3 := SecondAcceptance(q, s, st2);
    ReachThen(Plain(q), InitOf(q), st2, st3);
    var st4 := ThirdProposal(q, s, st3);
    ReachThen(Plain(q), InitOf(q), st3, st4);
    var st5 := FourthProposal(q, s, st4);
    ReachThen(Plain(q), InitOf(q), st4, st5);
    var st6 := FourthAcceptance(q, s, st5);
    ReachThen(Plain(q), InitOf(q), st5, st6);
    var st7 := FourthReturn(q, s, st6);
    ReachThen(Plain(q), InitOf(q), st6, st7);
    var st8 := SecondReturn(q, s, st7);
    ReachThen(Plain(q), InitOf(q), st7, st8);
    var steps :| Leads(Plain(q), InitOf(q), steps, st8);
    assert !Agreement(st8) by {
      assert Outcome(0, Datum(1)).value != Outcome(0, Datum(2)).value;
    }
  }

  /** Exactly the quorums of at most two servers guarantee agreement. */
  lemma AgreementExactly(q: Quorum)
    ensures AgreementGuaranteed(q) <==> |q| <= 2
  {
    if |q| <= 2 {
      SmallQuorumsAgree(q);
    } else {
      LargeQuorumsDisagree(q);
    }
  }
}
