/**
 The acceptor side of the Paxos library: the state of one server, and what
 `propose`, `accept` and `confirm` do to it.

 The three operations appear twice: as functions on server states, which the
 protocol proofs use, and as methods of the class `Server`, which update the
 fields one after the other as the original does and are proved against the
 functions.
 */
module PaxosServer {
  import opened Options

  type ServerId = int
  type Quorum = set<ServerId>

  /** A ballot: a version of the replicated value, a round, and who proposes. */
  datatype Proposal = Proposal(version: int, round: int, sender: int)

  /** The lexicographic order on ballots. */
  predicate Less(a: Proposal, b: Proposal) {
    || a.version < b.version
    || (a.version == b.version && a.round < b.round)
    || (a.version == b.version && a.round == b.round && a.sender < b.sender)
  }

  /** What a consensus decides: a plain datum, or the election of a quorum. */
  datatype Value = Datum(datum: int) | Election(quorum: Quorum)

  datatype Accepted = Accepted(proposal: Proposal, value: Value, confirmed: bool)

  datatype VersionState = VersionState(proposal: Proposal, accepted: Option<Accepted>)

  datatype Response = Response(proposal: Option<Proposal>, value: Option<Value>, confirmed: bool)

  datatype Error = WrongQuorum(expected: Quorum) | ProposeFirst

  datatype ServerState = ServerState(
    quorum: Quorum,
    value: Option<int>,
    partial: bool,
    state: Option<VersionState>)
  {
    predicate HasAccepted() {
      state.Some? && state.value.accepted.Some?
    }

    function TheAccepted(): Accepted
      requires HasAccepted()
    {
      state.value.accepted.value
    }
  }

  /** The quorum that a request for `p` must name. */
  function ExpectedQuorum(s: ServerState, p: Proposal): Quorum {
    if && s.HasAccepted()
       && s.TheAccepted().confirmed
       && s.TheAccepted().value.Election?
       && p.version > s.TheAccepted().proposal.version
    then s.TheAccepted().value.quorum
    else s.quorum
  }

  /** No version is skipped, and the previous one was confirmed. */
  predicate IsConfirmed(s: ServerState, p: Proposal) {
    && !s.partial
    && (|| s.state.None?
        || s.state.value.proposal.version >= p.version
        || (&& s.state.value.proposal.version == p.version - 1
            && s.state.value.accepted.Some?
            && s.state.value.accepted.value.confirmed))
  }

  /** Commits what the previous version decided and forgets that version. */
  function CommitPrevious(s: ServerState): ServerState
    requires s.HasAccepted()
  {
    match s.TheAccepted().value
    case Datum(d) => s.(value := Some(d), state := None)
    case Election(q) => s.(quorum := q, state := None)
  }

  /** Registers `p` as the least ballot that is still welcome. */
  function Promise(s: ServerState, p: Proposal): (ServerState, Response) {
    match s.state
    case None =>
      (s.(state := Some(VersionState(p, None))), Response(None, None, false))
    case Some(VersionState(proposal, accepted)) =>
      if Less(proposal, p) then
        (s.(state := Some(VersionState(p, accepted))),
         match accepted
         case Some(a) => Response(Some(proposal), Some(a.value), a.confirmed)
         case None => Response(None, None, false))
      else
        (s,
         match accepted
         case Some(a) => Response(Some(proposal), Some(a.value), a.confirmed)
         case None => Response(Some(proposal), None, false))
  }

  function Propose(s: ServerState, q: Quorum, p: Proposal): (ServerState, Result<Response, Error>) {
    if s.HasAccepted() && s.TheAccepted().proposal.version > p.version then
      var a := s.TheAccepted();
      (s, Ok(Response(Some(a.proposal), Some(a.value), a.confirmed)))
    else if IsConfirmed(s, p) then
      if q != ExpectedQuorum(s, p) then
        (s, Err(WrongQuorum(ExpectedQuorum(s, p))))
      else
        var s' := if s.state.Some? && p.version > s.state.value.proposal.version then CommitPrevious(s) else s;
        var (s'', r) := Promise(s', p);
        (s'', Ok(r))
    else
      var s' := if s.partial then s else s.(partial := true, state := None);
      var (s'', r) := Promise(s', p);
      (s'', Ok(r))
  }

  function Accept(s: ServerState, q: Quorum, p: Proposal, v: Value): (ServerState, Result<Proposal, Error>) {
    if !s.partial && q != ExpectedQuorum(s, p) then
      (s, Err(WrongQuorum(ExpectedQuorum(s, p))))
    else if s.state.None? || Less(s.state.value.proposal, p) then
      (s, Err(ProposeFirst))
    else if Less(p, s.state.value.proposal) then
      (s, Ok(s.state.value.proposal))
    else
      var confirmed := s.HasAccepted() && s.TheAccepted().confirmed;
      var state := s.state.value.(accepted := Some(Accepted(p, v, confirmed)));
      (s.(state := Some(state)), Ok(state.proposal))
  }

  function Confirm(s: ServerState, q: Quorum, p: Proposal): (ServerState, Result<(), Error>) {
    if s.state.Some? && p.version < s.state.value.proposal.version then
      (s, Ok(()))
    else if !s.partial && q != ExpectedQuorum(s, p) then
      (s, Err(WrongQuorum(ExpectedQuorum(s, p))))
    else if s.state.None? || Less(s.state.value.proposal, p) || s.state.value.accepted.None? then
      (s, Err(ProposeFirst))
    else if s.TheAccepted().confirmed then
      (s, Ok(()))
    else
      var state := s.state.value.(accepted := Some(s.TheAccepted().(confirmed := true)));
      (s.(state := Some(state), quorum := if s.partial then q else s.quorum, partial := false), Ok(()))
  }

  class Server {
    const id: ServerId
    var quorum: Quorum
    var value: Option<int>
    var partial: bool
    var state: Option<VersionState>

    ghost function Abs(): ServerState
      reads this
    {
      ServerState(quorum, value, partial, state)
    }

    constructor (id: ServerId, quorum: Quorum, value: Option<int>)
      requires id in quorum
      ensures this.id == id && Abs() == ServerState(quorum, value, false, None)
    {
      this.id := id;
      this.quorum := quorum;
      this.value := value;
      this.partial := false;
      this.state := None;
    }

    method CheckQuorum(q: Quorum, p: Proposal) returns (r: Result<(), Error>)
      ensures r == if q == ExpectedQuorum(Abs(), p) then Ok(()) else Err(WrongQuorum(ExpectedQuorum(Abs(), p)))
    {
      var expected := quorum;
      if state.Some? && state.value.accepted.Some? {
        var a := state.value.accepted.value;
        if a.confirmed && a.value.Election? && p.version > a.proposal.version {
          expected := a.value.quorum;
        }
      }
      r := if q != expected then Err(WrongQuorum(expected)) else Ok(());
    }

    method CheckConfirmed(p: Proposal) returns (b: bool)
      ensures b == IsConfirmed(Abs(), p)
    {
      if partial {
        return false;
      }
      if state.None? {
        return true;
      }
      var version := state.value.proposal.version;
      if version >= p.version {
        return true;
      }
      return version == p.version - 1 && state.value.accepted.Some? && state.value.accepted.value.confirmed;
    }

    method HandlePropose(q: Quorum, p: Proposal) returns (r: Result<Response, Error>)
      modifies this
      ensures (Abs(), r) == Propose(old(Abs()), q, p)
    {
      if state.Some? && state.value.accepted.Some? {
        var a := state.value.accepted.value;
        if a.proposal.version > p.version {
          return Ok(Response(Some(a.proposal), Some(a.value), a.confirmed));
        }
      }
      var ready := CheckConfirmed(p);
      if ready {
        var check := CheckQuorum(q, p);
        if check.Err? {
          return Err(check.error);
        }
        if state.Some? && p.version > state.value.proposal.version {
          match state.value.accepted.value.value {
            case Datum(d) => value := Some(d);
            case Election(e) => quorum := e;
          }
          state := None;
        }
      } else if !partial {
        partial := true;
        state := None;
      }
      if state.None? {
        state := Some(VersionState(p, None));
        return Ok(Response(None, None, false));
      }
      var previous := state.value.proposal;
      if Less(previous, p) {
        state := Some(state.value.(proposal := p));
        if state.value.accepted.None? {
          return Ok(Response(None, None, false));
        }
      } else if state.value.accepted.None? {
        return Ok(Response(Some(previous), None, false));
      }
      var a := state.value.accepted.value;
      return Ok(Response(Some(previous), Some(a.value), a.confirmed));
    }

    method HandleAccept(q: Quorum, p: Proposal, v: Value) returns (r: Result<Proposal, Error>)
      modifies this`state
      ensures (Abs(), r) == Accept(old(Abs()), q, p, v)
    {
      if !partial {
        var check := CheckQuorum(q, p);
        if check.Err? {
          return Err(check.error);
        }
      }
      if state.None? || Less(state.value.proposal, p) {
        return Err(ProposeFirst);
      }
      if Less(p, state.value.proposal) {
        return Ok(state.value.proposal);
      }
      if state.value.accepted.None? {
        state := Some(state.value.(accepted := Some(Accepted(p, v, false))));
      } else {
        var a := state.value.accepted.value.(proposal := p);
        state := Some(state.value.(accepted := Some(a.(value := v))));
      }
      return Ok(state.value.proposal);
    }

    method HandleConfirm(q: Quorum, p: Proposal) returns (r: Result<(), Error>)
      modifies this
      ensures (Abs(), r) == Confirm(old(Abs()), q, p)
    {
      if state.Some? && p.version < state.value.proposal.version {
        return Ok(());
      }
      if !partial {
        var check := CheckQuorum(q, p);
        if check.Err? {
          return check;
        }
      }
      if state.None? || Less(state.value.proposal, p) || state.value.accepted.None? {
        return Err(ProposeFirst);
      }
      var a := state.value.accepted.value;
      if !a.confirmed {
        state := Some(state.value.(accepted := Some(a.(confirmed := true))));
        if partial {
          quorum := q;
          partial := false;
        }
      }
      return Ok(());
    }
  }
}
