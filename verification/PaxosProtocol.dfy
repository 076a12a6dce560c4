/**
 The whole protocol: any number of clients run `choose`, each against the
 servers of the quorum that it names. One iteration of the loop in `choose` is
 an *attempt*; it owns a ballot that no other attempt uses. A step is one
 request handled by one server or one local decision of a client. The answer to
 a request may be lost.
 */
module PaxosProtocol {
  import opened Options
  import opened PaxosServer

  datatype Phase = Proposing | Accepting | Confirming

  /**
   One iteration of `choose`. `quorum` are the peers of the client. `value` is what the attempt asks servers to
   accept: the caller's own value, or the one found in a response. `acks` and
   `confirms` are the servers whose acceptance and confirmation the client knows
   of. The last three fields are history: they record what happened and no step reads them.
   `voters` are the servers that accepted at this ballot, `adopted` the response
   whose value was taken over, and `sources` the ballot at which each reported
   value had been accepted.
   */
  datatype Attempt = Attempt(
    quorum: Quorum,
    value: Value,
    phase: Phase,
    conflicted: bool,
    responses: map<ServerId, Response>,
    acks: set<ServerId>,
    confirms: set<ServerId>,
    voters: set<ServerId>,
    adopted: Option<ServerId>,
    sources: map<ServerId, Proposal>)

  /** A value that some `choose` returned as decided for a version. */
  datatype Outcome = Outcome(version: int, value: Value)

  datatype State = State(
    servers: map<ServerId, ServerState>,
    attempts: map<Proposal, Attempt>,
    outcomes: set<Outcome>)

  datatype Step =
    | Start(b: Proposal, q: Quorum, v: Value)
    | Retry(b: Proposal, from: Proposal, pick: Option<ServerId>)
    | SendPropose(b: Proposal, s: ServerId, delivered: bool)
    | Decide(b: Proposal, pick: Option<ServerId>)
    | SendAccept(b: Proposal, s: ServerId, delivered: bool)
    | Commit(b: Proposal)
    | SendConfirm(b: Proposal, s: ServerId, delivered: bool)
    | Return(b: Proposal)
    | Learn(b: Proposal, s: ServerId)

  predicate Majority(x: set<ServerId>, q: Quorum) {
    |x| > |q| / 2
  }

  /** Fresh servers, each with the quorum it was made for. */
  function Init(initial: map<ServerId, Quorum>): State {
    State(map s | s in initial :: ServerState(initial[s], None, false, None), map[], {})
  }

  predicate Valued(a: Attempt, s: ServerId) {
    s in a.responses && a.responses[s].value.Some?
  }

  /** The answer neither refuses ballot `c` nor reveals a later one. */
  predicate Positive(c: Proposal, r: Response) {
    r.proposal.Some? ==> Less(r.proposal.value, c)
  }

  /** Response `s` carries a value, and no response with a value names a later ballot. */
  ghost predicate Greatest(a: Attempt, s: ServerId) {
    && Valued(a, s)
    && a.responses[s].proposal.Some?
    && forall t :: Valued(a, t) && a.responses[t].proposal.Some? ==>
         !Less(a.responses[s].proposal.value, a.responses[t].proposal.value)
  }

  /** A majority answered, nobody reported a confirmed value, and `pick` is the answer to take over, if any. */
  ghost predicate Answered(a: Attempt, pick: Option<ServerId>) {
    && a.phase.Proposing?
    && Majority(a.responses.Keys, a.quorum)
    && (forall s :: Valued(a, s) ==> !a.responses[s].confirmed)
    && match pick
       case None => forall s :: !Valued(a, s)
       case Some(s) => Greatest(a, s)
  }

  ghost predicate MayDecide(b: Proposal, a: Attempt, pick: Option<ServerId>) {
    Answered(a, pick) && forall s :: s in a.responses ==> Positive(b, a.responses[s])
  }

  /** The attempt was refused: by an answer to its proposal, or on acceptance, after which there is nothing to pick. */
  ghost predicate MayRetry(b: Proposal, a: Attempt, pick: Option<ServerId>) {
    || (Answered(a, pick) && exists s :: s in a.responses && !Positive(b, a.responses[s]))
    || (a.phase.Accepting? && a.conflicted && pick.None?)
  }

  /** What the attempt goes on with: the value it takes over, or the one it has. */
  function Carried(a: Attempt, pick: Option<ServerId>): Value {
    if pick.Some? && Valued(a, pick.value) then a.responses[pick.value].value.value else a.value
  }

  ghost predicate Enabled(st: State, step: Step) {
    match step
    case Start(b, _, _) => b !in st.attempts
    case Retry(b, from, pick) =>
      && b !in st.attempts && from in st.attempts
      && b.sender == from.sender && Less(from, b)
      && MayRetry(from, st.attempts[from], pick)
    case SendPropose(b, s, _) =>
      && b in st.attempts && st.attempts[b].phase.Proposing?
      && s in st.servers && s in st.attempts[b].quorum && s !in st.attempts[b].responses
    case Decide(b, pick) =>
      b in st.attempts && MayDecide(b, st.attempts[b], pick)
    case SendAccept(b, s, _) =>
      && b in st.attempts && !st.attempts[b].phase.Proposing?
      && s in st.servers && s in st.attempts[b].responses
    case Commit(b) =>
      && b in st.attempts && st.attempts[b].phase.Accepting?
      && !st.attempts[b].conflicted && Majority(st.attempts[b].acks, st.attempts[b].quorum)
    case SendConfirm(b, s, _) =>
      && b in st.attempts && st.attempts[b].phase.Confirming?
      && s in st.servers && s in st.attempts[b].acks
    case Return(b) =>
      && b in st.attempts && st.attempts[b].phase.Confirming?
      && Majority(st.attempts[b].confirms, st.attempts[b].quorum)
    case Learn(b, s) =>
      && b in st.attempts && st.attempts[b].phase.Proposing?
      && Valued(st.attempts[b], s)
      && st.attempts[b].responses[s].confirmed && st.attempts[b].responses[s].proposal.Some?
  }

  /** An attempt that sent nothing yet. */
  function New(q: Quorum, v: Value): Attempt {
    Attempt(q, v, Proposing, false, map[], {}, {}, {}, None, map[])
  }

  /** Records the answer `r` of server `s`, whose state was `before`, to the proposal of `a`. */
  function Record(a: Attempt, s: ServerId, before: ServerState, r: Response): Attempt {
    a.(responses := a.responses[s := r],
       sources := if r.value.Some? && before.HasAccepted() then a.sources[s := before.TheAccepted().proposal]
                  else a.sources - {s})
  }

  ghost function Apply(st: State, step: Step): State
    requires Enabled(st, step)
  {
    match step
    case Start(b, q, v) =>
      st.(attempts := st.attempts[b := New(q, v)])
    case Retry(b, from, pick) =>
      var a := st.attempts[from];
      st.(attempts := st.attempts[b := New(a.quorum, Carried(a, pick))])
    case SendPropose(b, s, delivered) =>
      var a := st.attempts[b];
      var (server, r) := Propose(st.servers[s], a.quorum, b);
      var a' := if r.Ok? && delivered then Record(a, s, st.servers[s], r.value) else a;
      st.(servers := st.servers[s := server], attempts := st.attempts[b := a'])
    case Decide(b, pick) =>
      var a := st.attempts[b];
      st.(attempts := st.attempts[b := a.(phase := Accepting, value := Carried(a, pick), adopted := pick)])
    case SendAccept(b, s, delivered) =>
      var a := st.attempts[b];
      var (server, r) := Accept(st.servers[s], a.quorum, b, a.value);
      var voted := r.Ok? && !Less(b, r.value);
      var a' := a.(voters := if voted then a.voters + {s} else a.voters,
                   acks := if voted && delivered then a.acks + {s} else a.acks,
                   conflicted := a.conflicted || (delivered && r.Ok? && Less(b, r.value)));
      st.(servers := st.servers[s := server], attempts := st.attempts[b := a'])
    case Commit(b) =>
      st.(attempts := st.attempts[b := st.attempts[b].(phase := Confirming)])
    case SendConfirm(b, s, delivered) =>
      var a := st.attempts[b];
      var (server, r) := Confirm(st.servers[s], a.quorum, b);
      var a' := if r.Ok? && delivered then a.(confirms := a.confirms + {s}) else a;
      st.(servers := st.servers[s := server], attempts := st.attempts[b := a'])
    case Return(b) =>
      st.(outcomes := st.outcomes + {Outcome(b.version, st.attempts[b].value)})
    case Learn(b, s) =>
      var r := st.attempts[b].responses[s];
      st.(outcomes := st.outcomes + {Outcome(r.proposal.value.version, r.value.value)})
  }

  /** The state after `steps`, or nothing when one of them is not enabled in its turn. */
  ghost function Exec(st: State, steps: seq<Step>): Option<State>
    decreases |steps|
  {
    if steps == [] then Some(st)
    else if Enabled(st, steps[0]) then Exec(Apply(st, steps[0]), steps[1..])
    else None
  }

  /** For each version, every client that learned a decision learned the same one. */
  ghost predicate Agreement(st: State) {
    forall o, o' :: o in st.outcomes && o' in st.outcomes && o.version == o'.version ==> o.value == o'.value
  }

  /** All the attempts name quorum `q`. */
  ghost predicate Names(st: State, q: Quorum) {
    forall b :: b in st.attempts ==> st.attempts[b].quorum == q
  }

  /** The servers of `q` as they are made for that quorum. */
  function InitOf(q: Quorum): State {
    Init(map s | s in q :: q)
  }

  /** Agreement after every run of every set of clients that name the quorum `q` of the servers. */
  ghost predicate AgreementGuaranteed(q: Quorum) {
    forall steps: seq<Step> ::
      var end := Exec(InitOf(q), steps);
      end.Some? && Names(end.value, q) ==> Agreement(end.value)
  }

  /**
   A server that reports a value names the ballot at which it accepted that
   value. The code names the least ballot it still welcomes instead, so this
   fails when another proposal came in since the value was accepted.
   */
  predicate FreshStep(st: State, step: Step) {
    step.SendPropose? && step.s in st.servers && step.b in st.attempts ==>
      var server := st.servers[step.s];
      var r := Propose(server, st.attempts[step.b].quorum, step.b).1;
      r.Ok? && r.value.value.Some? && server.HasAccepted() ==>
        r.value.proposal == Some(server.TheAccepted().proposal)
  }

  ghost predicate FreshRun(st: State, steps: seq<Step>)
    decreases |steps|
  {
    steps == [] ||
    (&& Enabled(st, steps[0])
     && FreshStep(st, steps[0])
     && FreshRun(Apply(st, steps[0]), steps[1..]))
  }
}
