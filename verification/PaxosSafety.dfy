/**
 What every run of the protocol keeps, and the two cases in which that implies
 agreement among attempts that name one quorum for each version: answers that
 name the ballot of the value they report, and quorums of at most two servers.
 */
module PaxosSafety {
  import opened Options
  import opened PaxosServer
  import opened PaxosProtocol
  import opened Sets

  /** Server `s` accepted `v` at ballot `b`. */
  ghost predicate VotedFor(st: State, s: ServerId, b: Proposal, v: Value) {
    b in st.attempts && s in st.attempts[b].voters && st.attempts[b].value == v
  }

  ghost predicate ServerInv(st: State, s: ServerId)
    requires s in st.servers
  {
    var x := st.servers[s];
    && (x.partial ==> x.state.Some?)
    && (x.HasAccepted() ==>
          var a := x.TheAccepted();
          && !Less(x.state.value.proposal, a.proposal)
          && (!x.partial ==> a.proposal.version == x.state.value.proposal.version)
          && (x.partial ==> !a.confirmed)
          && VotedFor(st, s, a.proposal, a.value))
  }

  /** A server that voted at `b` never falls back below `b`. */
  ghost predicate VoterInv(st: State, b: Proposal, s: ServerId)
    requires b in st.attempts
  {
    && s in st.servers
    && !st.attempts[b].phase.Proposing?
    && var x := st.servers[s];
       && x.state.Some?
       && !Less(x.state.value.proposal, b)
       && (x.state.value.proposal.version == b.version ==>
             x.HasAccepted() && !Less(x.TheAccepted().proposal, b))
  }

  /** The votes of `s` below `c` in the version of `c` are no later than the value `s` reported to `c`. */
  ghost predicate Covers(st: State, c: Proposal, s: ServerId, b: Proposal)
    requires c in st.attempts
  {
    b in st.attempts && s in st.attempts[b].voters && Less(b, c) && b.version == c.version ==>
      s in st.attempts[c].sources && !Less(st.attempts[c].sources[s], b)
  }

  /** A server that answered `c` is held by it; a value it reported was voted for below `c`. */
  ghost predicate Reported(st: State, c: Proposal, s: ServerId)
    requires c in st.attempts && s in st.attempts[c].responses
  {
    var a := st.attempts[c];
    var r := a.responses[s];
    && s in st.servers
    && (Positive(c, r) ==>
          && st.servers[s].state.Some?
          && !Less(st.servers[s].state.value.proposal, c)
          && (r.value.Some? <==> s in a.sources)
          && (r.value.Some? ==>
                && r.proposal.Some?
                && Less(a.sources[s], c)
                && VotedFor(st, s, a.sources[s], r.value.value)))
  }

  ghost predicate ResponseInv(st: State, c: Proposal, s: ServerId)
    requires c in st.attempts && s in st.attempts[c].responses
  {
    && Reported(st, c, s)
    && (Positive(c, st.attempts[c].responses[s]) ==> forall b :: Covers(st, c, s, b))
  }

  ghost predicate AttemptInv(st: State, c: Proposal)
    requires c in st.attempts
  {
    var a := st.attempts[c];
    && a.acks <= a.voters <= a.quorum
    && a.responses.Keys <= a.quorum
    && (a.phase.Proposing? ==> a.voters == {})
    && (!a.phase.Proposing? ==>
          && Majority(a.responses.Keys, a.quorum)
          && (forall s :: s in a.responses ==> Positive(c, a.responses[s]))
          && match a.adopted
             case None => forall s :: !Valued(a, s)
             case Some(s) => Greatest(a, s) && a.responses[s].value == Some(a.value))
    && (a.phase.Confirming? ==> Majority(a.acks, a.quorum))
  }

  ghost predicate Inv(st: State) {
    && (forall s :: s in st.servers ==> ServerInv(st, s))
    && (forall b, s :: b in st.attempts && s in st.attempts[b].voters ==> VoterInv(st, b, s))
    && (forall c, s :: c in st.attempts && s in st.attempts[c].responses ==> ResponseInv(st, c, s))
    && (forall c :: c in st.attempts ==> AttemptInv(st, c))
  }

  /** No step takes back a promise. */
  lemma StepMonotone(st: State, step: Step, s: ServerId)
    requires Enabled(st, step) && s in st.servers && st.servers[s].state.Some?
    ensures
      var st' := Apply(st, step);
      && s in st'.servers && st'.servers[s].state.Some?
      && !Less(st'.servers[s].state.value.proposal, st.servers[s].state.value.proposal)
  {
  }

  /** No step takes back a vote or changes the value that was voted for. */
  lemma StepKeepsVote(st: State, step: Step, s: ServerId, b: Proposal, v: Value)
    requires Enabled(st, step) && VotedFor(st, s, b, v) && VoterInv(st, b, s)
    ensures VotedFor(Apply(st, step), s, b, v)
  {
  }

  /** A server that answers `p` without refusing is at `p`, and reports what it last accepted. */
  lemma PositiveAnswer(s: ServerState, q: Quorum, p: Proposal)
    requires Propose(s, q, p).1.Ok? && Positive(p, Propose(s, q, p).1.value)
    ensures
      var (s', r) := Propose(s, q, p);
      && s'.state.Some? && s'.state.value.proposal == p
      && (r.value.value.Some? ==>
            && s.HasAccepted() && r.value.proposal == Some(s.state.value.proposal)
            && r.value.value == Some(s.TheAccepted().value))
  {
  }

  lemma StepServer(st: State, step: Step, s: ServerId)
    requires Enabled(st, step) && s in st.servers && ServerInv(st, s)
    requires step.b in st.attempts ==> AttemptInv(st, step.b)
    requires st.servers[s].HasAccepted() ==> VoterInv(st, st.servers[s].TheAccepted().proposal, s)
    requires step.b in st.attempts && s in st.attempts[step.b].voters ==> VoterInv(st, step.b, s)
    ensures s in Apply(st, step).servers && ServerInv(Apply(st, step), s)
  {
    if st.servers[s].HasAccepted() {
      var a := st.servers[s].TheAccepted();
      StepKeepsVote(st, step, s, a.proposal, a.value);
    }
  }

  lemma StepVoter(st: State, step: Step, b: Proposal, s: ServerId)
    requires Enabled(st, step)
    requires b in Apply(st, step).attempts && s in Apply(st, step).attempts[b].voters
    requires s in st.servers ==> ServerInv(st, s)
    requires b in st.attempts && s in st.attempts[b].voters ==> VoterInv(st, b, s)
    ensures VoterInv(Apply(st, step), b, s)
  {
    if b in st.attempts && s in st.attempts[b].voters {
      StepMonotone(st, step, s);
    }
  }

  lemma StepCovers(st: State, step: Step, c: Proposal, s: ServerId, b: Proposal)
    requires Enabled(st, step)
    requires c in Apply(st, step).attempts && s in Apply(st, step).attempts[c].responses
    requires Positive(c, Apply(st, step).attempts[c].responses[s])
    requires c in st.attempts && s in st.attempts[c].responses ==> Reported(st, c, s) && Covers(st, c, s, b)
    requires b in st.attempts && s in st.attempts[b].voters ==> VoterInv(st, b, s)
    ensures Covers(Apply(st, step), c, s, b)
  {
    if c in st.attempts && s in st.attempts[c].responses {
      assert Apply(st, step).attempts[c].responses[s] == st.attempts[c].responses[s];
      assert (s in st.attempts[c].sources) == (s in Apply(st, step).attempts[c].sources);
    }
  }

  lemma StepReported(st: State, step: Step, c: Proposal, s: ServerId)
    requires Enabled(st, step)
    requires c in Apply(st, step).attempts && s in Apply(st, step).attempts[c].responses
    requires c in st.attempts && s in st.attempts[c].responses ==>
               && Reported(st, c, s)
               && (s in st.attempts[c].sources ==>
                     var source := st.attempts[c].sources[s];
                     source in st.attempts && s in st.attempts[source].voters ==> VoterInv(st, source, s))
    requires s in st.servers ==> ServerInv(st, s)
    requires s in st.servers && st.servers[s].HasAccepted() ==> VoterInv(st, st.servers[s].TheAccepted().proposal, s)
    ensures Reported(Apply(st, step), c, s)
  {
    var st' := Apply(st, step);
    if c in st.attempts && s in st.attempts[c].responses {
      var a := st.attempts[c];
      assert st'.attempts[c].responses[s] == a.responses[s];
      if Positive(c, a.responses[s]) {
        StepMonotone(st, step, s);
        if s in a.sources {
          StepKeepsVote(st, step, s, a.sources[s], a.responses[s].value.value);
        }
      }
    } else if Positive(c, st'.attempts[c].responses[s]) {
      PositiveAnswer(st.servers[s], st.attempts[c].quorum, c);
      if st.servers[s].HasAccepted() {
        var x := st.servers[s].TheAccepted();
        StepKeepsVote(st, step, s, x.proposal, x.value);
      }
    }
  }

  lemma StepResponse(st: State, step: Step, c: Proposal, s: ServerId)
    requires Inv(st) && Enabled(st, step)
    requires c in Apply(st, step).attempts && s in Apply(st, step).attempts[c].responses
    ensures ResponseInv(Apply(st, step), c, s)
  {
    if c in st.attempts && s in st.attempts[c].responses {
      assert ResponseInv(st, c, s);
    }
    if s in st.servers {
      assert ServerInv(st, s);
    }
    StepReported(st, step, c, s);
    if Positive(c, Apply(st, step).attempts[c].responses[s]) {
      forall b ensures Covers(Apply(st, step), c, s, b) {
        StepCovers(st, step, c, s, b);
      }
    }
  }

  lemma StepAttempt(st: State, step: Step, c: Proposal)
    requires Enabled(st, step)
    requires c in Apply(st, step).attempts
    requires c in st.attempts ==> AttemptInv(st, c)
    ensures AttemptInv(Apply(st, step), c)
  {
    var a' := Apply(st, step).attempts[c];
    if step.b != c {
      assert a' == st.attempts[c];
    } else if c in st.attempts {
      var a := st.attempts[c];
      if !a'.phase.Proposing? {
        assert a'.responses == a.responses;
        assert forall s :: Valued(a', s) == Valued(a, s);
      }
      SubsetSize(a.acks, a'.acks);
    }
  }

  lemma StepKeepsInv(st: State, step: Step)
    requires Inv(st) && Enabled(st, step)
    ensures Inv(Apply(st, step))
  {
    var st' := Apply(st, step);
    forall s | s in st'.servers ensures ServerInv(st', s) {
      assert ServerInv(st, s);
      if st.servers[s].HasAccepted() {
        assert VoterInv(st, st.servers[s].TheAccepted().proposal, s);
      }
      StepServer(st, step, s);
    }
    forall b, s | b in st'.attempts && s in st'.attempts[b].voters ensures VoterInv(st', b, s) {
      StepVoter(st, step, b, s);
    }
    forall c, s | c in st'.attempts && s in st'.attempts[c].responses ensures ResponseInv(st', c, s) {
      StepResponse(st, step, c, s);
    }
    forall c | c in st'.attempts ensures AttemptInv(st', c) {
      StepAttempt(st, step, c);
    }
  }

  /** Ballot `b` was accepted by a majority, whether or not any client knows. */
  ghost predicate Chosen(st: State, b: Proposal) {
    b in st.attempts && Majority(st.attempts[b].voters, st.attempts[b].quorum)
  }

  /** Every answer that reports a value names the ballot of that value. */
  ghost predicate Fresh(st: State) {
    forall c, s :: c in st.attempts && s in st.attempts[c].responses && s in st.attempts[c].sources ==>
      st.attempts[c].responses[s].proposal == Some(st.attempts[c].sources[s])
  }

  /** Attempts on the same version name the same quorum. */
  ghost predicate Coherent(st: State) {
    forall b, c :: b in st.attempts && c in st.attempts && b.version == c.version ==>
      st.attempts[b].quorum == st.attempts[c].quorum
  }

  /** Only quorums of at most two servers are named. */
  ghost predicate Small(st: State) {
    forall b :: b in st.attempts ==> |st.attempts[b].quorum| <= 2
  }

  ghost predicate Steady(st: State) {
    Small(st) || Fresh(st)
  }

  ghost predicate Safe(st: State) {
    Coherent(st) && Steady(st)
  }

  lemma MajoritiesMeet(x: set<ServerId>, y: set<ServerId>, q: Quorum) returns (s: ServerId)
    requires x <= q && y <= q && Majority(x, q) && Majority(y, q)
    ensures s in x && s in y
  {
    SubsetSize(x + y, q);
    s := Member(x * y);
  }

  /** A majority of one or two servers is all of them. */
  lemma SmallMajority(x: set<ServerId>, q: Quorum, s: ServerId)
    requires x <= q && Majority(x, q) && |q| <= 2 && s in q
    ensures s in x
  {
    if s !in x {
      SubsetSize(x, q - {s});
    }
  }

  ghost function Below(st: State, c: Proposal): set<Proposal> {
    set x | x in st.attempts && Less(x, c)
  }

  /** What a majority accepted binds every later attempt on the same version. */
  lemma {:induction false} ChosenBinds(st: State, b: Proposal, c: Proposal)
    requires Inv(st) && Safe(st) && Chosen(st, b)
    requires c in st.attempts && !st.attempts[c].phase.Proposing?
    requires Less(b, c) && b.version == c.version
    ensures st.attempts[c].value == st.attempts[b].value
    decreases |Below(st, c)|
  {
    var a := st.attempts[c];
    assert AttemptInv(st, c) && AttemptInv(st, b);
    var s := MajoritiesMeet(a.responses.Keys, st.attempts[b].voters, a.quorum);
    assert ResponseInv(st, c, s) && Covers(st, c, s, b);
    assert Valued(a, s);
    var t := a.adopted.value;
    assert ResponseInv(st, c, t);
    var source := a.sources[t];
    assert !Less(source, b) by {
      if Small(st) {
        SmallMajority(st.attempts[b].voters, a.quorum, t);
        assert Covers(st, c, t, b);
      } else {
        assert Fresh(st);
      }
    }
    if source != b {
      assert VoterInv(st, source, t);
      assert Below(st, source) < Below(st, c) by {
        assert source in Below(st, c) && source !in Below(st, source);
      }
      ProperSubsetSize(Below(st, source), Below(st, c));
      ChosenBinds(st, b, source);
    }
  }

  /** Version `version` was decided to be `v`. */
  ghost predicate ChosenAt(st: State, version: int, v: Value) {
    exists b :: Chosen(st, b) && b.version == version && st.attempts[b].value == v
  }

  /** A ballot no later than `a`, in the version of `a`, decided `v`. */
  ghost predicate ChosenBy(st: State, a: Proposal, v: Value) {
    exists b :: Chosen(st, b) && b.version == a.version && !Less(a, b) && st.attempts[b].value == v
  }

  /** Whatever is marked confirmed, and whatever a client reported, was chosen. */
  ghost predicate ConfirmInv(st: State) {
    && (forall s :: s in st.servers && st.servers[s].HasAccepted() && st.servers[s].TheAccepted().confirmed ==>
          ChosenBy(st, st.servers[s].TheAccepted().proposal, st.servers[s].TheAccepted().value))
    && (forall c, s :: c in st.attempts && Valued(st.attempts[c], s) && ConfirmedAnswer(st.attempts[c].responses[s]) ==>
          ChosenAt(st, st.attempts[c].responses[s].proposal.value.version, st.attempts[c].responses[s].value.value))
    && (forall o :: o in st.outcomes ==> ChosenAt(st, o.version, o.value))
  }

  predicate ConfirmedAnswer(r: Response) {
    r.confirmed && r.proposal.Some?
  }

  lemma StepKeepsChosen(st: State, step: Step, b: Proposal)
    requires Inv(st) && Enabled(st, step) && Chosen(st, b)
    ensures Chosen(Apply(st, step), b)
    ensures Apply(st, step).attempts[b].value == st.attempts[b].value
  {
    assert AttemptInv(st, b);
    var voters, voters' := st.attempts[b].voters, Apply(st, step).attempts[b].voters;
    SubsetSize(voters, voters');
  }

  lemma StepKeepsChosenAt(st: State, step: Step, version: int, v: Value)
    requires Inv(st) && Enabled(st, step) && ChosenAt(st, version, v)
    ensures ChosenAt(Apply(st, step), version, v)
  {
    var b :| Chosen(st, b) && b.version == version && st.attempts[b].value == v;
    StepKeepsChosen(st, step, b);
  }

  /** What a confirmed server can move to: a later ballot of the same version. */
  lemma AfterConfirmation(st: State, step: Step, s: ServerId)
    requires Enabled(st, step) && s in st.servers && ServerInv(st, s)
    requires st.servers[s].HasAccepted() && st.servers[s].TheAccepted().confirmed
    requires Apply(st, step).servers[s].HasAccepted()
    ensures
      var a, a' := st.servers[s].TheAccepted(), Apply(st, step).servers[s].TheAccepted();
      || (a'.proposal == a.proposal && a'.value == a.value)
      || (&& step.SendAccept? && a'.proposal == step.b && a'.value == st.attempts[step.b].value
          && step.b.version == a.proposal.version && !Less(step.b, a.proposal))
  {
  }

  /** A flag that is set by a step was set by a confirmation, on a server that held the ballot. */
  lemma NewFlag(st: State, step: Step, s: ServerId)
    requires Enabled(st, step) && s in st.servers
    requires Apply(st, step).servers[s].HasAccepted() && Apply(st, step).servers[s].TheAccepted().confirmed
    requires !(st.servers[s].HasAccepted() && st.servers[s].TheAccepted().confirmed)
    ensures step.SendConfirm? && step.s == s && st.servers[s].HasAccepted()
    ensures st.servers[s].state.value.proposal.version <= step.b.version
    ensures
      var a, a' := st.servers[s].TheAccepted(), Apply(st, step).servers[s].TheAccepted();
      a'.proposal == a.proposal && a'.value == a.value
  {
  }

  /** A server is told to confirm only what it accepted and what a majority accepted. */
  lemma NewConfirmation(st: State, b: Proposal, s: ServerId)
    requires Inv(st) && Safe(st) && b in st.attempts && s in st.servers
    requires st.attempts[b].phase.Confirming? && s in st.attempts[b].acks
    requires st.servers[s].HasAccepted() && !st.servers[s].TheAccepted().confirmed
    requires st.servers[s].state.value.proposal.version <= b.version
    ensures Chosen(st, b)
    ensures
      var a := st.servers[s].TheAccepted();
      b.version == a.proposal.version && !Less(a.proposal, b) && st.attempts[b].value == a.value
  {
    assert AttemptInv(st, b) && VoterInv(st, b, s) && ServerInv(st, s);
    SubsetSize(st.attempts[b].acks, st.attempts[b].voters);
    var a := st.servers[s].TheAccepted().proposal;
    assert VoterInv(st, a, s);
    if a != b {
      ChosenBinds(st, b, a);
    }
  }

  lemma StepConfirmsServer(st: State, step: Step, s: ServerId)
    requires Inv(st) && Safe(st) && Enabled(st, step) && s in st.servers
    requires
      var x := st.servers[s];
      x.HasAccepted() && x.TheAccepted().confirmed ==> ChosenBy(st, x.TheAccepted().proposal, x.TheAccepted().value)
    requires
      var x := Apply(st, step).servers[s];
      x.HasAccepted() && x.TheAccepted().confirmed
    ensures
      var x := Apply(st, step).servers[s];
      ChosenBy(Apply(st, step), x.TheAccepted().proposal, x.TheAccepted().value)
  {
    var a' := Apply(st, step).servers[s].TheAccepted();
    var b;
    if st.servers[s].HasAccepted() && st.servers[s].TheAccepted().confirmed {
      var a := st.servers[s].TheAccepted();
      b :| Chosen(st, b) && b.version == a.proposal.version && !Less(a.proposal, b) && st.attempts[b].value == a.value;
      assert ServerInv(st, s);
      AfterConfirmation(st, step, s);
      if !(a'.proposal == a.proposal && a'.value == a.value) && step.b != b {
        ChosenBinds(st, b, step.b);
      }
    } else {
      NewFlag(st, step, s);
      b := step.b;
      NewConfirmation(st, b, s);
    }
    StepKeepsChosen(st, step, b);
    assert !Less(a'.proposal, b);
  }

  /** A confirmed answer tells the version and value that its server had confirmed. */
  lemma ConfirmedAnswerIsHeld(st: State, step: Step, c: Proposal, s: ServerId)
    requires Enabled(st, step) && c in Apply(st, step).attempts
    requires s in st.servers ==> ServerInv(st, s)
    requires Valued(Apply(st, step).attempts[c], s) && ConfirmedAnswer(Apply(st, step).attempts[c].responses[s])
    ensures
      var r := Apply(st, step).attempts[c].responses[s];
      || (c in st.attempts && Valued(st.attempts[c], s) && st.attempts[c].responses[s] == r)
      || (&& s in st.servers && st.servers[s].HasAccepted() && st.servers[s].TheAccepted().confirmed
          && st.servers[s].TheAccepted().value == r.value.value
          && st.servers[s].TheAccepted().proposal.version == r.proposal.value.version)
  {
  }

  lemma StepKeepsConfirmInv(st: State, step: Step)
    requires Inv(st) && Safe(st) && ConfirmInv(st) && Enabled(st, step)
    ensures ConfirmInv(Apply(st, step))
  {
    var st' := Apply(st, step);
    forall s | s in st'.servers && st'.servers[s].HasAccepted() && st'.servers[s].TheAccepted().confirmed
      ensures ChosenBy(st', st'.servers[s].TheAccepted().proposal, st'.servers[s].TheAccepted().value)
    {
      StepConfirmsServer(st, step, s);
    }
    forall c, s | c in st'.attempts && Valued(st'.attempts[c], s) && ConfirmedAnswer(st'.attempts[c].responses[s])
      ensures
        var r := st'.attempts[c].responses[s];
        ChosenAt(st', r.proposal.value.version, r.value.value)
    {
      var r := st'.attempts[c].responses[s];
      ConfirmedAnswerIsHeld(st, step, c, s);
      StepKeepsChosenAt(st, step, r.proposal.value.version, r.value.value);
    }
    forall o | o in st'.outcomes ensures ChosenAt(st', o.version, o.value) {
      StepKeepsOutcome(st, step, o);
    }
  }

  lemma StepKeepsOutcome(st: State, step: Step, o: Outcome)
    requires Inv(st) && ConfirmInv(st) && Enabled(st, step) && o in Apply(st, step).outcomes
    ensures ChosenAt(Apply(st, step), o.version, o.value)
  {
    if o !in st.outcomes && step.Return? {
      var a := st.attempts[step.b];
      assert AttemptInv(st, step.b);
      SubsetSize(a.acks, a.voters);
      assert Chosen(st, step.b);
    }
    StepKeepsChosenAt(st, step, o.version, o.value);
  }

  lemma ConfirmInvAgrees(st: State)
    requires Inv(st) && Safe(st) && ConfirmInv(st)
    ensures Agreement(st)
  {
    forall o, o' | o in st.outcomes && o' in st.outcomes && o.version == o'.version ensures o.value == o'.value {
      var b :| Chosen(st, b) && b.version == o.version && st.attempts[b].value == o.value;
      var b' :| Chosen(st, b') && b'.version == o.version && st.attempts[b'].value == o'.value;
      ChosenIsDecided(st, b);
      ChosenIsDecided(st, b');
      if Less(b, b') {
        ChosenBinds(st, b, b');
      } else if Less(b', b) {
        ChosenBinds(st, b', b);
      }
    }
  }

  lemma ChosenIsDecided(st: State, b: Proposal)
    requires Inv(st) && Chosen(st, b)
    ensures !st.attempts[b].phase.Proposing?
  {
    assert AttemptInv(st, b);
  }

  lemma StepKeepsFresh(st: State, step: Step)
    requires Enabled(st, step) && Fresh(st) && FreshStep(st, step)
    ensures Fresh(Apply(st, step))
  {
    var st' := Apply(st, step);
    forall c, s | c in st'.attempts && s in st'.attempts[c].responses && s in st'.attempts[c].sources
      ensures st'.attempts[c].responses[s].proposal == Some(st'.attempts[c].sources[s])
    {
      if c in st.attempts && s in st.attempts[c].responses {
        assert st'.attempts[c].responses[s] == st.attempts[c].responses[s];
      }
    }
  }

  lemma CoherentBefore(st: State, step: Step)
    requires Enabled(st, step) && Coherent(Apply(st, step))
    ensures Coherent(st)
  {
    var st' := Apply(st, step);
    assert forall b :: b in st.attempts ==> b in st'.attempts && st'.attempts[b].quorum == st.attempts[b].quorum;
  }

  lemma SteadyBefore(st: State, step: Step)
    requires Enabled(st, step) && Steady(Apply(st, step))
    ensures Steady(st)
  {
    var st' := Apply(st, step);
    if Small(st') {
      assert forall b :: b in st.attempts ==> b in st'.attempts && st'.attempts[b].quorum == st.attempts[b].quorum;
    } else {
      forall c, s | c in st.attempts && s in st.attempts[c].responses && s in st.attempts[c].sources
        ensures st.attempts[c].responses[s].proposal == Some(st.attempts[c].sources[s])
      {
        AnswerStays(st, step, c, s);
      }
    }
  }

  lemma AnswerStays(st: State, step: Step, c: Proposal, s: ServerId)
    requires Enabled(st, step) && c in st.attempts && s in st.attempts[c].responses && s in st.attempts[c].sources
    ensures
      var a, st' := st.attempts[c], Apply(st, step);
      && c in st'.attempts && s in st'.attempts[c].responses && s in st'.attempts[c].sources
      && st'.attempts[c].responses[s] == a.responses[s] && st'.attempts[c].sources[s] == a.sources[s]
  {
  }

  lemma {:induction false} CoherentBeforeRun(st: State, steps: seq<Step>)
    requires Exec(st, steps).Some? && Coherent(Exec(st, steps).value)
    ensures Coherent(st)
    decreases |steps|
  {
    if steps != [] {
      CoherentBeforeRun(Apply(st, steps[0]), steps[1..]);
      CoherentBefore(st, steps[0]);
    }
  }

  lemma {:induction false} SteadyBeforeRun(st: State, steps: seq<Step>)
    requires Exec(st, steps).Some? && Steady(Exec(st, steps).value)
    ensures Steady(st)
    decreases |steps|
  {
    if steps != [] {
      SteadyBeforeRun(Apply(st, steps[0]), steps[1..]);
      SteadyBefore(st, steps[0]);
    }
  }

  lemma {:induction false} RunIsSafe(st: State, steps: seq<Step>)
    requires Inv(st) && ConfirmInv(st)
    requires Exec(st, steps).Some? && Safe(Exec(st, steps).value)
    ensures Agreement(Exec(st, steps).value)
    decreases |steps|
  {
    if steps == [] {
      ConfirmInvAgrees(st);
    } else {
      CoherentBeforeRun(st, steps);
      SteadyBeforeRun(st, steps);
      StepKeepsInv(st, steps[0]);
      StepKeepsConfirmInv(st, steps[0]);
      RunIsSafe(Apply(st, steps[0]), steps[1..]);
    }
  }

  /**
   Whatever quorums the servers were made for, agreement holds after every run
   in which attempts on one version name one quorum, if those quorums have at
   most two servers or every answer names the ballot of the value it reports.
   */
  lemma SafeRunsAgree(initial: map<ServerId, Quorum>, steps: seq<Step>)
    requires Exec(Init(initial), steps).Some? && Safe(Exec(Init(initial), steps).value)
    ensures Agreement(Exec(Init(initial), steps).value)
  {
    RunIsSafe(Init(initial), steps);
  }

  lemma {:induction false} FreshRunIsFresh(st: State, steps: seq<Step>)
    requires Exec(st, steps).Some? && FreshRun(st, steps) && Fresh(st)
    ensures Fresh(Exec(st, steps).value)
    decreases |steps|
  {
    if steps != [] {
      StepKeepsFresh(st, steps[0]);
      FreshRunIsFresh(Apply(st, steps[0]), steps[1..]);
    }
  }

  /** Runs in which every answer names the ballot of the value it reports agree, on quorums of any size. */
  lemma FreshRunsAgree(initial: map<ServerId, Quorum>, steps: seq<Step>)
    requires Exec(Init(initial), steps).Some? && FreshRun(Init(initial), steps)
    requires Coherent(Exec(Init(initial), steps).value)
    ensures Agreement(Exec(Init(initial), steps).value)
  {
    FreshRunIsFresh(Init(initial), steps);
    SafeRunsAgree(initial, steps);
  }

  /** On one or two servers the code agrees as it is. */
  lemma SmallQuorumsAgree(q: Quorum)
    requires |q| <= 2
    ensures AgreementGuaranteed(q)
  {
    forall steps: seq<Step> | Exec(InitOf(q), steps).Some? && Names(Exec(InitOf(q), steps).value, q)
      ensures Agreement(Exec(InitOf(q), steps).value)
    {
      SafeRunsAgree(map s | s in q :: q, steps);
    }
  }

  // ---------------------------------------------------------------------
  // Only submitted values are decided, on any quorum and in any run.

  /** Every value in the system is one of `vs`. */
  ghost predicate Within(st: State, vs: set<Value>) {
    && (forall b :: b in st.attempts ==> st.attempts[b].value in vs)
    && (forall b, s :: b in st.attempts && Valued(st.attempts[b], s) ==> st.attempts[b].responses[s].value.value in vs)
    && (forall s :: s in st.servers && st.servers[s].HasAccepted() ==> st.servers[s].TheAccepted().value in vs)
    && (forall o :: o in st.outcomes ==> o.value in vs)
  }

  lemma AttemptsStayWithin(st: State, step: Step, vs: set<Value>, b: Proposal)
    requires Within(st, vs) && Enabled(st, step) && (step.Start? ==> step.v in vs)
    requires b in Apply(st, step).attempts
    ensures Apply(st, step).attempts[b].value in vs
  {
  }

  lemma ResponsesStayWithin(st: State, step: Step, vs: set<Value>, b: Proposal, s: ServerId)
    requires Within(st, vs) && Enabled(st, step)
    requires b in Apply(st, step).attempts && Valued(Apply(st, step).attempts[b], s)
    ensures Apply(st, step).attempts[b].responses[s].value.value in vs
  {
    if b in st.attempts && s in st.attempts[b].responses {
      assert Valued(st.attempts[b], s);
    }
  }

  lemma ServersStayWithin(st: State, step: Step, vs: set<Value>, s: ServerId)
    requires Within(st, vs) && Enabled(st, step)
    requires s in Apply(st, step).servers && Apply(st, step).servers[s].HasAccepted()
    ensures Apply(st, step).servers[s].TheAccepted().value in vs
  {
  }

  lemma OutcomesStayWithin(st: State, step: Step, vs: set<Value>, o: Outcome)
    requires Within(st, vs) && Enabled(st, step) && o in Apply(st, step).outcomes
    ensures o.value in vs
  {
  }

  lemma StepStaysWithin(st: State, step: Step, vs: set<Value>)
    requires Within(st, vs) && Enabled(st, step) && (step.Start? ==> step.v in vs)
    ensures Within(Apply(st, step), vs)
  {
    var st' := Apply(st, step);
    forall b | b in st'.attempts ensures st'.attempts[b].value in vs {
      AttemptsStayWithin(st, step, vs, b);
    }
    forall b, s | b in st'.attempts && Valued(st'.attempts[b], s)
      ensures st'.attempts[b].responses[s].value.value in vs
    {
      ResponsesStayWithin(st, step, vs, b, s);
    }
    forall s | s in st'.servers && st'.servers[s].HasAccepted() ensures st'.servers[s].TheAccepted().value in vs {
      ServersStayWithin(st, step, vs, s);
    }
    forall o | o in st'.outcomes ensures o.value in vs {
      OutcomesStayWithin(st, step, vs, o);
    }
  }

  /** What callers asked for: the values of first attempts, not those that a retry carries on. */
  ghost function Submitted(steps: seq<Step>): set<Value> {
    set i | 0 <= i < |steps| && steps[i].Start? :: steps[i].v
  }

  lemma {:induction false} RunStaysWithin(st: State, steps: seq<Step>, vs: set<Value>)
    requires Within(st, vs) && Exec(st, steps).Some? && Submitted(steps) <= vs
    ensures Within(Exec(st, steps).value, vs)
    decreases |steps|
  {
    if steps != [] {
      assert steps[0].Start? ==> steps[0].v in Submitted(steps);
      StepStaysWithin(st, steps[0], vs);
      assert Submitted(steps[1..]) <= Submitted(steps) by {
        assert forall i :: 0 <= i < |steps| - 1 ==> steps[1..][i] == steps[i + 1];
      }
      RunStaysWithin(Apply(st, steps[0]), steps[1..], vs);
    }
  }

  /** Whatever a client learns was asked for by the caller of some `choose`. */
  lemma Validity(initial: map<ServerId, Quorum>, steps: seq<Step>)
    requires Exec(Init(initial), steps).Some?
    ensures forall o :: o in Exec(Init(initial), steps).value.outcomes ==>
              exists i :: 0 <= i < |steps| && steps[i].Start? && steps[i].v == o.value
  {
    RunStaysWithin(Init(initial), steps, Submitted(steps));
  }
}
