/**
 How a server passes from one version to the next: whom it listens to, what it
 commits and what it keeps. A confirmed election hands the next version over to
 the elected quorum; a server that missed a version listens to anyone until it
 is told to confirm, and then belongs to the quorum that told it.
 */
module PaxosElections {
  import opened Options
  import opened PaxosServer
  import opened PaxosProtocol
  import opened PaxosSafety
  import opened PaxosReconfiguration
  import opened PaxosRuns
  import opened PaxosCalls
  import opened Sets

  /** The server is up to date and has `value` confirmed for `version`. */
  predicate Decided(s: ServerState, version: int, value: Value) {
    && !s.partial && s.state.Some? && s.state.value.proposal.version == version
    && s.state.value.accepted.Some?
    && var a := s.state.value.accepted.value;
       a.proposal.version == version && a.value == value && a.confirmed
  }

  /** The server has no confirmed election of a version before that of `p`. */
  predicate NoElectionBefore(s: ServerState, p: Proposal) {
    s.state.Some? && s.state.value.accepted.Some? ==>
      var a := s.state.value.accepted.value;
      a.confirmed && a.value.Election? ==> p.version <= a.proposal.version
  }

  // ---------------------------------------------------------------------
  // Ballots and promises.

  /** A later version comes after all ballots of an earlier one, a later round after all clients of an earlier one. */
  lemma BallotOrder(v: int, v': int, r: int, r': int, c: int, c': int)
    ensures v < v' ==> Less(Proposal(v, r, c), Proposal(v', r', c'))
    ensures r < r' ==> Less(Proposal(v, r, c), Proposal(v, r', c'))
    ensures c < c' ==> Less(Proposal(v, r, c), Proposal(v, r, c'))
  {
  }

  lemma BallotsAreOrdered(a: Proposal, b: Proposal, c: Proposal)
    ensures Less(a, b) || a == b || Less(b, a)
    ensures !(Less(a, b) && Less(b, a)) && !Less(a, a)
    ensures Less(a, b) && Less(b, c) ==> Less(a, c)
  {
  }

  /**
   A proposal on the version that a server is on leaves it at the later of the
   two ballots, with what it had accepted. The answer tells what was accepted,
   under the ballot promised before, and that ballot alone when it refuses.
   */
  lemma PromiseExactly(s: ServerState, q: Quorum, p: Proposal)
    requires s.state.Some? && s.state.value.proposal.version == p.version && (s.partial || q == s.quorum)
    requires s.HasAccepted() ==> s.TheAccepted().proposal.version == p.version
    ensures
      var promised, accepted := s.state.value.proposal, s.state.value.accepted;
      var (s', r) := Propose(s, q, p);
      && s' == s.(state := Some(VersionState(if Less(promised, p) then p else promised, accepted)))
      && r.Ok?
      && r.value.proposal == (if accepted.None? && Less(promised, p) then None else Some(promised))
      && r.value.value == (if accepted.Some? then Some(accepted.value.value) else None)
      && r.value.confirmed == (accepted.Some? && accepted.value.confirmed)
  {
  }

  /** A server that accepted on a later version tells so to anyone who asks for an earlier one, and keeps its state. */
  lemma EarlierVersion(s: ServerState, q: Quorum, p: Proposal)
    requires s.HasAccepted() && s.TheAccepted().proposal.version > p.version
    ensures
      var a := s.TheAccepted();
      Propose(s, q, p) == (s, Ok(Response(Some(a.proposal), Some(a.value), a.confirmed)))
  {
  }

  // ---------------------------------------------------------------------
  // The next version.

  /** After an election, the elected quorum alone may start the next version, and becomes the quorum of the server. */
  lemma ElectionIsHonoured(s: ServerState, version: int, e: Quorum, q: Quorum, p: Proposal)
    requires Decided(s, version, Election(e)) && p.version == version + 1
    ensures Propose(s, q, p) ==
              if q == e then
                (ServerState(e, s.value, false, Some(VersionState(p, None))), Ok(Response(None, None, false)))
              else (s, Err(WrongQuorum(e)))
  {
  }

  /** After a datum the quorum stays, and the datum becomes the value of the server. */
  lemma DatumIsCommitted(s: ServerState, version: int, d: int, q: Quorum, p: Proposal)
    requires Decided(s, version, Datum(d)) && p.version == version + 1
    ensures Propose(s, q, p) ==
              if q == s.quorum then
                (ServerState(s.quorum, Some(d), false, Some(VersionState(p, None))), Ok(Response(None, None, false)))
              else (s, Err(WrongQuorum(s.quorum)))
  {
  }

  /** Nothing else than a proposal starts the next version, and the old quorum is told of the new one. */
  lemma ElectionGuardsNextVersion(s: ServerState, version: int, e: Quorum, q: Quorum, p: Proposal, v: Value)
    requires Decided(s, version, Election(e)) && p.version > version
    ensures Accept(s, q, p, v) == (s, Err(if q == e then ProposeFirst else WrongQuorum(e)))
    ensures Confirm(s, q, p) == (s, Err(if q == e then ProposeFirst else WrongQuorum(e)))
  {
  }

  /** A server that is up to date refuses every other quorum than its own, and nothing changes. */
  lemma OtherQuorumsAreRefused(s: ServerState, q: Quorum, p: Proposal, v: Value)
    requires !s.partial && NoElectionBefore(s, p) && q != s.quorum
    ensures Accept(s, q, p, v) == (s, Err(WrongQuorum(s.quorum)))
    ensures Confirm(s, q, p) ==
              (s, if s.state.Some? && p.version < s.state.value.proposal.version then Ok(())
                  else Err(WrongQuorum(s.quorum)))
    ensures s.state.None? || (s.state.value.proposal.version == p.version && s.state.value.accepted.None?) ==>
              Propose(s, q, p) == (s, Err(WrongQuorum(s.quorum)))
  {
  }

  /** The request gets past the check of its quorum. */
  predicate Heard(s: ServerState, q: Quorum, p: Proposal) {
    s.partial || (NoElectionBefore(s, p) && q == s.quorum)
  }

  /**
   A value is accepted exactly at the ballot that the server promised. At an
   earlier one the answer is the promise, at a later one it is to propose first.
   */
  lemma AcceptExactly(s: ServerState, q: Quorum, p: Proposal, v: Value)
    requires Heard(s, q, p)
    ensures
      var (s', r) := Accept(s, q, p, v);
      && (r == Err(ProposeFirst) <==> s.state.None? || Less(s.state.value.proposal, p))
      && (r.Err? ==> r.error == ProposeFirst)
      && (r.Ok? ==> r.value == s.state.value.proposal)
      && (s' != s ==> r == Ok(p))
      && (r == Ok(p) ==>
            && s'.HasAccepted() && s'.TheAccepted().proposal == p && s'.TheAccepted().value == v
            && s'.TheAccepted().confirmed == (s.HasAccepted() && s.TheAccepted().confirmed)
            && s' == s.(state := Some(VersionState(p, s'.state.value.accepted))))
  {
  }

  /** A confirmation is answered on a later version, and where a value is held at this ballot or later. */
  lemma ConfirmExactly(s: ServerState, q: Quorum, p: Proposal)
    requires Heard(s, q, p)
    ensures
      var (s', r) := Confirm(s, q, p);
      && (r.Ok? <==>
            && s.state.Some?
            && (|| s.state.value.proposal.version > p.version
                || (!Less(s.state.value.proposal, p) && s.HasAccepted())))
      && (r.Err? ==> r.error == ProposeFirst && s' == s)
      && (r.Ok? && s.state.value.proposal.version > p.version ==> s' == s)
  {
  }

  /** An attempt whose acceptance is refused goes no further; it may be retried with its value. */
  lemma ConflictStops(st: State, b: Proposal, s: ServerId, later: Proposal)
    requires Enabled(st, SendAccept(b, s, true)) && st.attempts[b].phase.Accepting?
    requires Heard(st.servers[s], st.attempts[b].quorum, b)
    requires st.servers[s].state.Some? && Less(b, st.servers[s].state.value.proposal)
    requires later !in st.attempts && later.sender == b.sender && Less(b, later)
    ensures
      var st' := Apply(st, SendAccept(b, s, true));
      && st'.attempts[b].acks == st.attempts[b].acks && !Enabled(st', Commit(b))
      && Enabled(st', Retry(later, b, None))
      && Apply(st', Retry(later, b, None)).attempts[later] == New(st.attempts[b].quorum, st.attempts[b].value)
  {
  }

  /** Nor does it ever after. */
  lemma ConflictLasts(st: State, step: Step, b: Proposal)
    requires Enabled(st, step) && b in st.attempts && st.attempts[b].conflicted
    ensures b in Apply(st, step).attempts && Apply(st, step).attempts[b].conflicted
    ensures Apply(st, step).attempts[b].phase == st.attempts[b].phase || (step.Decide? && step.b == b)
  {
  }

  // ---------------------------------------------------------------------
  // Servers that missed a version.

  /** A version before that of `p` was skipped or is not confirmed here. */
  predicate Misses(s: ServerState, p: Proposal) {
    && s.state.Some? && s.state.value.proposal.version < p.version
    && (s.state.value.accepted.Some? ==> s.state.value.accepted.value.proposal.version <= p.version)
    && !(&& s.state.value.proposal.version == p.version - 1
         && s.state.value.accepted.Some? && s.state.value.accepted.value.confirmed)
  }

  /** It forgets what it held and listens to any quorum, its own being as before. */
  lemma MissedVersion(s: ServerState, q: Quorum, p: Proposal)
    requires !s.partial && Misses(s, p)
    ensures Propose(s, q, p) ==
              (ServerState(s.quorum, s.value, true, Some(VersionState(p, None))), Ok(Response(None, None, false)))
  {
  }

  /** While it is behind, requests are judged by their ballots alone. */
  lemma BehindListensToAnyone(s: ServerState, q: Quorum, q': Quorum, p: Proposal, v: Value)
    requires s.partial
    ensures Propose(s, q, p) == Propose(s, q', p) && Propose(s, q, p).1.Ok? && Propose(s, q, p).0.partial
    ensures Accept(s, q, p, v) == Accept(s, q', p, v)
    ensures Confirm(s, q, p).1 == Confirm(s, q', p).1
  {
  }

  /** The confirmation of what it holds brings it up to date, as a server of the quorum that asked. */
  lemma ConfirmationRejoins(s: ServerState, q: Quorum, p: Proposal)
    requires s.partial && s.HasAccepted() && s.state.value.proposal.version == p.version
    requires !Less(s.state.value.proposal, p) && !s.TheAccepted().confirmed
    ensures
      var (s', r) := Confirm(s, q, p);
      && r == Ok(()) && !s'.partial && s'.quorum == q && s'.value == s.value
      && s'.state == Some(VersionState(s.state.value.proposal, Some(s.TheAccepted().(confirmed := true))))
  {
  }

  // ---------------------------------------------------------------------
  // Confirmations last.

  /** What a server has confirmed for a version stays confirmed until it goes on to a later version. */
  lemma StepKeepsConfirmation(st: State, step: Step, s: ServerId)
    requires Enabled(st, step) && s in st.servers && ServerInv(st, s)
    requires st.servers[s].HasAccepted() && st.servers[s].TheAccepted().confirmed
    ensures
      var version, x := st.servers[s].state.value.proposal.version, Apply(st, step).servers[s];
      && x.state.Some? && x.state.value.proposal.version >= version
      && (x.state.value.proposal.version == version ==> x.HasAccepted() && x.TheAccepted().confirmed)
  {
  }

  /** Server `s` has a value confirmed for `version`, or went on to a later one. */
  predicate Past(st: State, s: ServerId, version: int) {
    && s in st.servers && st.servers[s].state.Some?
    && var x := st.servers[s];
       || x.state.value.proposal.version > version
       || (x.state.value.proposal.version == version && x.HasAccepted() && x.TheAccepted().confirmed)
  }

  /** Every server that answered a confirmation is past the version. */
  ghost predicate ConfirmsHold(st: State) {
    forall b, s :: b in st.attempts && s in st.attempts[b].confirms ==> Past(st, s, b.version)
  }

  lemma StepKeepsPast(st: State, step: Step, s: ServerId, version: int)
    requires Enabled(st, step) && Past(st, s, version) && ServerInv(st, s)
    ensures Past(Apply(st, step), s, version)
  {
    if st.servers[s].HasAccepted() && st.servers[s].TheAccepted().confirmed {
      StepKeepsConfirmation(st, step, s);
    }
    StepMonotone(st, step, s);
  }

  /** A server that answers a confirmation is past its version afterwards. */
  lemma ConfirmIsPast(s: ServerState, q: Quorum, p: Proposal)
    requires Confirm(s, q, p).1.Ok?
    ensures
      var s' := Confirm(s, q, p).0;
      && s'.state.Some?
      && (|| s'.state.value.proposal.version > p.version
          || (s'.state.value.proposal.version == p.version && s'.HasAccepted() && s'.TheAccepted().confirmed))
  {
  }

  lemma StepKeepsConfirms(st: State, step: Step)
    requires Inv(st) && ConfirmsHold(st) && Enabled(st, step)
    ensures ConfirmsHold(Apply(st, step))
  {
    var st' := Apply(st, step);
    forall b, s | b in st'.attempts && s in st'.attempts[b].confirms ensures Past(st', s, b.version) {
      if b in st.attempts && s in st.attempts[b].confirms {
        assert Past(st, s, b.version) && ServerInv(st, s);
        StepKeepsPast(st, step, s, b.version);
      } else {
        ConfirmIsPast(st.servers[s], st.attempts[b].quorum, b);
      }
    }
  }

  lemma {:induction false} RunKeepsConfirms(st: State, steps: seq<Step>)
    requires Inv(st) && ConfirmsHold(st) && Exec(st, steps).Some?
    ensures ConfirmsHold(Exec(st, steps).value)
    decreases |steps|
  {
    if steps != [] {
      StepKeepsInv(st, steps[0]);
      StepKeepsConfirms(st, steps[0]);
      RunKeepsConfirms(Apply(st, steps[0]), steps[1..]);
    }
  }

  /** Whenever a call returns, in any run, a majority of its quorum has its version confirmed or is past it. */
  lemma ReturnIsConfirmed(initial: map<ServerId, Quorum>, steps: seq<Step>, b: Proposal) returns (x: set<ServerId>)
    requires Exec(Init(initial), steps).Some? && Enabled(Exec(Init(initial), steps).value, Return(b))
    ensures
      var st := Exec(Init(initial), steps).value;
      && Majority(x, st.attempts[b].quorum)
      && forall s :: s in x ==> Past(st, s, b.version)
  {
    RunKeepsConfirms(Init(initial), steps);
    x := Exec(Init(initial), steps).value.attempts[b].confirms;
  }

  // ---------------------------------------------------------------------
  // An election takes effect.

  lemma ElectedServes(s: ServerState, version: int, e: Quorum, b: Proposal, v: Value)
    requires Decided(s, version, Election(e)) && b.version == version + 1
    ensures Serves(s, e, b, v)
    ensures Served(s, e, b, v) == ServerState(e, s.value, false, Some(VersionState(b, Some(Accepted(b, v, true)))))
  {
    ElectionIsHonoured(s, version, e, e, b);
  }

  /**
   Once servers `x` confirmed the election of `e`, and are a majority of it, a
   call that names `e` for the next version can return, and leaves them servers
   of `e` that have its value confirmed.
   */
  lemma ReachNextVersion(
    terms: Terms, st: State, version: int, e: Quorum, b: Proposal, v: Value, x: set<ServerId>) returns (st': State)
    requires b !in st.attempts && b.version == version + 1 && InForce(terms.first, st.outcomes, b.version, e)
    requires x <= st.servers.Keys && x <= e && Majority(x, e)
    requires forall s :: s in x ==> Decided(st.servers[s], version, Election(e))
    ensures Reach(terms, st, st') && st'.outcomes == st.outcomes + {Outcome(b.version, v)}
    ensures st'.servers.Keys == st.servers.Keys
    ensures forall s :: s in x ==> st'.servers[s].quorum == e && Decided(st'.servers[s], b.version, v)
  {
    forall s | s in x
      ensures Serves(st.servers[s], e, b, v)
      ensures Served(st.servers[s], e, b, v).quorum == e && Decided(Served(st.servers[s], e, b, v), b.version, v)
    {
      ElectedServes(st.servers[s], version, e, b, v);
    }
    st' := ReachAnswered(terms, e, st, b, v, x);
  }

  const FIRST := Proposal(0, 1, 1)
  const SECOND := Proposal(1, 1, 2)

  /** All the servers of `q` elect `e`. */
  lemma ReachElected(q: Quorum, e: Quorum) returns (st: State)
    requires q != {}
    ensures Reach(Terms(q, true), InitOf(q), st) && st.outcomes == {Outcome(0, Election(e))}
    ensures st.servers.Keys == q && SECOND !in st.attempts
    ensures forall s :: s in q ==> Decided(st.servers[s], 0, Election(e))
  {
    var fresh0 := ServerState(q, None, false, None);
    assert Serves(fresh0, q, FIRST, Election(e)) && Decided(Served(fresh0, q, FIRST, Election(e)), 0, Election(e));
    st := ReachAnswered(Terms(q, true), q, InitOf(q), FIRST, Election(e), q);
  }

  /**
   From the start, for any two quorums: `q` elects `e`; from then on `q` is
   refused on the next version unless it is `e`; and if the members that they
   have in common are a majority of `e`, a call that names `e` returns there.
   */
  lemma ElectionTakesEffect(q: Quorum, e: Quorum, v: Value) returns (st: State, st': State)
    requires Majority(q * e, e)
    ensures Reach(Terms(q, true), InitOf(q), st) && st.outcomes == {Outcome(0, Election(e))}
    ensures forall s, b: Proposal :: s in q && b.version == 1 && q != e ==>
              s in st.servers && Propose(st.servers[s], q, b) == (st.servers[s], Err(WrongQuorum(e)))
    ensures Reach(Terms(q, true), InitOf(q), st') && st'.outcomes == {Outcome(0, Election(e)), Outcome(1, v)}
    ensures forall s :: s in q * e ==> s in st'.servers && st'.servers[s].quorum == e
  {
    var some := Member(q * e);
    st := ReachElected(q, e);
    forall s, b: Proposal | s in q && b.version == 1 && q != e
      ensures Propose(st.servers[s], q, b) == (st.servers[s], Err(WrongQuorum(e)))
    {
      ElectionIsHonoured(st.servers[s], 0, e, q, b);
    }
    assert InForce(q, st.outcomes, 1, e) by {
      assert Outcome(0, Election(e)) in st.outcomes;
    }
    st' := ReachNextVersion(Terms(q, true), st, 0, e, SECOND, v, q * e);
    ReachThen(Terms(q, true), InitOf(q), st, st');
  }
}
