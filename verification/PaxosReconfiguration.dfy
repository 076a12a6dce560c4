/**
 Changes of quorum. A version may decide who decides on the next one. When every
 attempt names the quorum in force for its version, agreement carries over from
 version to version, since it is what makes the quorum in force unique.
 */
module PaxosReconfiguration {
  import opened Options
  import opened PaxosServer
  import opened PaxosProtocol
  import opened PaxosSafety

  /**
   The decisions `outcomes` put quorum `q` in force for `version`: it is the
   one elected last before, or `first` when none was, and every version since
   the first is known to be decided.
   */
  ghost predicate InForce(first: Quorum, outcomes: set<Outcome>, version: int, q: Quorum)
    decreases version
  {
    if version <= 0 then q == first
    else
      exists o ::
        && o in outcomes && o.version == version - 1
        && match o.value
           case Election(elected) => q == elected
           case Datum(_) => InForce(first, outcomes, version - 1, q)
  }

  /** A caller of `choose` names the quorum in force for the version it asks for. */
  ghost predicate Asked(first: Quorum, st: State, step: Step) {
    step.Start? ==> InForce(first, st.outcomes, step.b.version, step.q)
  }

  /** Also when an attempt goes on to another version, the quorum that it keeps is in force there. */
  ghost predicate Legitimate(first: Quorum, st: State, step: Step)
    requires Enabled(st, step)
  {
    && Asked(first, st, step)
    && (step.Retry? && step.b.version != step.from.version ==>
          InForce(first, st.outcomes, step.b.version, st.attempts[step.from].quorum))
  }

  ghost predicate LegitimateRun(first: Quorum, st: State, steps: seq<Step>)
    requires Exec(st, steps).Some?
    decreases |steps|
  {
    steps == [] || (Legitimate(first, st, steps[0]) && LegitimateRun(first, Apply(st, steps[0]), steps[1..]))
  }

  lemma {:induction false} InForceStays(
    first: Quorum, outcomes: set<Outcome>, more: set<Outcome>, version: int, q: Quorum)
    requires InForce(first, outcomes, version, q) && outcomes <= more
    ensures InForce(first, more, version, q)
    decreases version
  {
    if version > 0 {
      var o :|
        && o in outcomes && o.version == version - 1
        && match o.value
           case Election(elected) => q == elected
           case Datum(_) => InForce(first, outcomes, version - 1, q);
      if o.value.Datum? {
        InForceStays(first, outcomes, more, version - 1, q);
      }
      assert o in more;
    }
  }

  /** Agreed decisions put one quorum in force. */
  lemma {:induction false} OneInForce(first: Quorum, st: State, version: int, q: Quorum, q': Quorum)
    requires Agreement(st) && InForce(first, st.outcomes, version, q) && InForce(first, st.outcomes, version, q')
    ensures q == q'
    decreases version
  {
    if version > 0 {
      var o :|
        && o in st.outcomes && o.version == version - 1
        && match o.value
           case Election(elected) => q == elected
           case Datum(_) => InForce(first, st.outcomes, version - 1, q);
      var o' :|
        && o' in st.outcomes && o'.version == version - 1
        && match o'.value
           case Election(elected) => q' == elected
           case Datum(_) => InForce(first, st.outcomes, version - 1, q');
      assert o.value == o'.value;
      if o.value.Datum? {
        OneInForce(first, st, version - 1, q, q');
      }
    }
  }

  /** Every attempt names the quorum in force for its version. */
  ghost predicate Ruled(first: Quorum, st: State) {
    forall b :: b in st.attempts ==> InForce(first, st.outcomes, b.version, st.attempts[b].quorum)
  }

  lemma NewIsRuled(first: Quorum, st: State, step: Step, b: Proposal)
    requires Ruled(first, st) && Enabled(st, step) && Legitimate(first, st, step) && b in Apply(st, step).attempts
    ensures InForce(first, st.outcomes, b.version, Apply(st, step).attempts[b].quorum)
  {
    if step.Retry? && step.b == b {
      assert InForce(first, st.outcomes, step.from.version, st.attempts[step.from].quorum);
    }
  }

  lemma StepKeepsRuled(first: Quorum, st: State, step: Step)
    requires Ruled(first, st) && Enabled(st, step) && Legitimate(first, st, step)
    ensures Ruled(first, Apply(st, step))
  {
    var st' := Apply(st, step);
    forall b | b in st'.attempts ensures InForce(first, st'.outcomes, b.version, st'.attempts[b].quorum) {
      NewIsRuled(first, st, step, b);
      InForceStays(first, st.outcomes, st'.outcomes, b.version, st'.attempts[b].quorum);
    }
  }

  /** A new attempt under agreed decisions is on the quorum that the others on its version are on. */
  lemma LegitimateStaysCoherent(first: Quorum, st: State, step: Step)
    requires Agreement(st) && Ruled(first, st) && Enabled(st, step) && Legitimate(first, st, step)
    ensures Coherent(Apply(st, step))
  {
    var st' := Apply(st, step);
    forall b, c | b in st'.attempts && c in st'.attempts && b.version == c.version
      ensures st'.attempts[b].quorum == st'.attempts[c].quorum
    {
      NewIsRuled(first, st, step, b);
      NewIsRuled(first, st, step, c);
      OneInForce(first, st, b.version, st'.attempts[b].quorum, st'.attempts[c].quorum);
    }
  }

  lemma {:induction false} LegitimateRunIsSafe(first: Quorum, st: State, steps: seq<Step>)
    requires Inv(st) && ConfirmInv(st) && Coherent(st) && Ruled(first, st)
    requires Exec(st, steps).Some? && LegitimateRun(first, st, steps) && Steady(Exec(st, steps).value)
    ensures Agreement(Exec(st, steps).value) && Coherent(Exec(st, steps).value)
    decreases |steps|
  {
    SteadyBeforeRun(st, steps);
    ConfirmInvAgrees(st);
    if steps != [] {
      var step := steps[0];
      LegitimateStaysCoherent(first, st, step);
      StepKeepsRuled(first, st, step);
      StepKeepsInv(st, step);
      StepKeepsConfirmInv(st, step);
      LegitimateRunIsSafe(first, Apply(st, step), steps[1..]);
    }
  }

  /**
   Quorums may elect other quorums: agreement holds on every version after
   every run in which attempts name the quorum that the decisions returned so
   far put in force, if those quorums have at most two servers or every
   answer names the ballot of the value it reports.
   */
  lemma ReconfigurationAgrees(initial: map<ServerId, Quorum>, first: Quorum, steps: seq<Step>)
    requires Exec(Init(initial), steps).Some? && Steady(Exec(Init(initial), steps).value)
    requires LegitimateRun(first, Init(initial), steps)
    ensures Agreement(Exec(Init(initial), steps).value) && Coherent(Exec(Init(initial), steps).value)
  {
    LegitimateRunIsSafe(first, Init(initial), steps);
  }
}
