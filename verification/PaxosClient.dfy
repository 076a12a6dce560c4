/**
 The choice that a client makes among the answers to its proposal, as the pass
 over the answers that looks for the greatest one.
 */
module PaxosClient {
  import opened Options
  import opened PaxosServer
  import opened PaxosProtocol
  import opened Sets

  /** The order by which a client compares answers: any value beats none, then the ballots decide. */
  predicate ValuedLess(l: Response, r: Response) {
    if l.value.Some? && r.value.Some? then
      l.proposal.Some? && r.proposal.Some? && Less(l.proposal.value, r.proposal.value)
    else
      l.value.None? && r.value.Some?
  }

  /** The first of the greatest answers; a server never reports a value without a ballot. */
  method MaxElement(responses: seq<Response>) returns (best: nat)
    requires responses != []
    requires forall i :: 0 <= i < |responses| && responses[i].value.Some? ==> responses[i].proposal.Some?
    ensures best < |responses|
    ensures forall i :: 0 <= i < |responses| ==> !ValuedLess(responses[best], responses[i])
    ensures forall i :: 0 <= i < best ==> ValuedLess(responses[i], responses[best])
  {
    best := 0;
    for i := 1 to |responses|
      invariant best < i
      invariant forall k :: 0 <= k < i ==> !ValuedLess(responses[best], responses[k])
      invariant forall k :: 0 <= k < best ==> ValuedLess(responses[k], responses[best])
    {
      if ValuedLess(responses[best], responses[i]) {
        best := i;
      }
    }
  }

  /** The answers of the servers in `order`, which are all that answered. */
  predicate Lists(order: seq<ServerId>, a: Attempt) {
    && (forall i :: 0 <= i < |order| ==> order[i] in a.responses)
    && (forall s :: s in a.responses ==> s in order)
  }

  /** An attempt that may go on takes over the value of the greatest answer that has one. */
  method Adopt(b: Proposal, order: seq<ServerId>, a: Attempt) returns (pick: Option<ServerId>)
    requires Lists(order, a) && a.phase.Proposing? && Majority(a.responses.Keys, a.quorum)
    requires forall s :: s in a.responses ==> Positive(b, a.responses[s]) && !a.responses[s].confirmed
    requires forall s :: Valued(a, s) ==> a.responses[s].proposal.Some?
    ensures MayDecide(b, a, pick)
  {
    ghost var some := Member(a.responses.Keys);
    assert some in order;
    var responses := seq(|order|, i requires 0 <= i < |order| => a.responses[order[i]]);
    assert forall i :: 0 <= i < |order| && responses[i].value.Some? ==> Valued(a, order[i]);
    var best := MaxElement(responses);
    if responses[best].value.None? {
      pick := None;
      forall s ensures !Valued(a, s) {
        if s in a.responses {
          var i :| 0 <= i < |order| && order[i] == s;
          assert responses[i] == a.responses[s];
        }
      }
    } else {
      pick := Some(order[best]);
      forall t | Valued(a, t) && a.responses[t].proposal.Some?
        ensures !Less(a.responses[order[best]].proposal.value, a.responses[t].proposal.value)
      {
        var i :| 0 <= i < |order| && order[i] == t;
        assert responses[i] == a.responses[t];
      }
    }
  }
}
