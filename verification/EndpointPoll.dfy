/**
 The thread that polls the hub for the endpoints of a network. It keeps a list
 of the nodes it knows and tells the overlay of each node that is new or moved.
 */
module EndpointPoll {
  import opened Options

  type Id = int
  type Endpoints = int

  datatype NodeLocation = NodeLocation(id: Id, endpoints: Endpoints)

  /** What a fetched list says: the last entry for an id counts. */
  function Latest(news: seq<NodeLocation>): map<Id, Endpoints> {
    if news == [] then map[]
    else Latest(news[..|news| - 1])[news[|news| - 1].id := news[|news| - 1].endpoints]
  }

  /** Entry `i` is the last one for its id. */
  predicate LastFor(news: seq<NodeLocation>, i: nat, id: Id) {
    i < |news| && news[i].id == id && forall j :: i < j < |news| ==> news[j].id != id
  }

  lemma {:induction false} LatestExactly(news: seq<NodeLocation>, id: Id, i: nat)
    ensures id in Latest(news) <==> exists k :: 0 <= k < |news| && news[k].id == id
    ensures LastFor(news, i, id) ==> id in Latest(news) && Latest(news)[id] == news[i].endpoints
    decreases |news|
  {
    if news != [] {
      var n := |news| - 1;
      LatestExactly(news[..n], id, i);
      if k :| 0 <= k < n && news[..n][k].id == id {
        assert news[k].id == id;
      }
      if i < n && LastFor(news, i, id) {
        assert LastFor(news[..n], i, id);
      }
    }
  }

  /** The list has one entry for each id of `m`, with its endpoints, and no other. */
  ghost predicate Represents(locs: seq<NodeLocation>, m: map<Id, Endpoints>) {
    && (forall i, j :: 0 <= i < j < |locs| ==> locs[i].id != locs[j].id)
    && (forall i :: 0 <= i < |locs| ==> locs[i].id in m && m[locs[i].id] == locs[i].endpoints)
    && (forall id :: id in m ==> exists i :: 0 <= i < |locs| && locs[i].id == id)
  }

  /** The overlay was last told the endpoints that `m` has. */
  ghost predicate Told(overlay: map<Id, Endpoints>, m: map<Id, Endpoints>) {
    forall id :: id in m ==> id in overlay && overlay[id] == m[id]
  }

  lemma RepresentsAppend(locs: seq<NodeLocation>, m: map<Id, Endpoints>, n: NodeLocation)
    requires Represents(locs, m) && n.id !in m
    ensures Represents(locs + [n], m[n.id := n.endpoints])
  {
    var locs', m' := locs + [n], m[n.id := n.endpoints];
    forall id | id in m' ensures exists i :: 0 <= i < |locs'| && locs'[i].id == id {
      if id == n.id {
        assert locs'[|locs|].id == id;
      } else {
        var i :| 0 <= i < |locs| && locs[i].id == id;
        assert locs'[i].id == id;
      }
    }
  }

  lemma RepresentsUpdate(locs: seq<NodeLocation>, m: map<Id, Endpoints>, i: nat, n: NodeLocation)
    requires Represents(locs, m) && i < |locs| && locs[i].id == n.id
    ensures Represents(locs[i := n], m[n.id := n.endpoints])
  {
    var locs', m' := locs[i := n], m[n.id := n.endpoints];
    assert forall k :: 0 <= k < |locs| ==> locs'[k].id == locs[k].id;
    forall id | id in m' ensures exists k :: 0 <= k < |locs'| && locs'[k].id == id {
      var k :| 0 <= k < |locs| && locs[k].id == id;
      assert locs'[k].id == id;
    }
  }

  /** The entries with an id in `ids`, in order. */
  function Kept(locs: seq<NodeLocation>, ids: set<Id>): (r: seq<NodeLocation>) {
    if locs == [] then []
    else Kept(locs[..|locs| - 1], ids) + if locs[|locs| - 1].id in ids then [locs[|locs| - 1]] else []
  }

  lemma {:induction false} KeptMembers(locs: seq<NodeLocation>, ids: set<Id>, l: NodeLocation)
    ensures l in Kept(locs, ids) <==> l in locs && l.id in ids
  {
    if locs != [] {
      KeptMembers(locs[..|locs| - 1], ids, l);
      assert locs == locs[..|locs| - 1] + [locs[|locs| - 1]];
    }
  }

  lemma {:induction false} KeptDistinct(locs: seq<NodeLocation>, ids: set<Id>)
    requires forall i, j :: 0 <= i < j < |locs| ==> locs[i].id != locs[j].id
    ensures
      var r := Kept(locs, ids);
      forall i, j :: 0 <= i < j < |r| ==> r[i].id != r[j].id
  {
    if locs != [] {
      var init := locs[..|locs| - 1];
      KeptDistinct(init, ids);
      var r := Kept(init, ids);
      forall i | 0 <= i < |r| ensures r[i].id != locs[|locs| - 1].id {
        KeptMembers(init, ids, r[i]);
        var k :| 0 <= k < |init| && init[k] == r[i];
      }
    }
  }

  lemma RepresentsKept(locs: seq<NodeLocation>, m: map<Id, Endpoints>, ids: set<Id>, news: map<Id, Endpoints>)
    requires Represents(locs, m + news) && ids == news.Keys
    ensures Represents(Kept(locs, ids), news)
  {
    KeptDistinct(locs, ids);
    var r := Kept(locs, ids);
    forall i | 0 <= i < |r| ensures r[i].id in news && news[r[i].id] == r[i].endpoints {
      KeptMembers(locs, ids, r[i]);
      var k :| 0 <= k < |locs| && locs[k] == r[i];
    }
    forall id | id in news ensures exists i :: 0 <= i < |r| && r[i].id == id {
      assert id in m + news;
      var k :| 0 <= k < |locs| && locs[k].id == id;
      KeptMembers(locs, ids, locs[k]);
      var i :| 0 <= i < |r| && r[i] == locs[k];
    }
  }

  lemma LatestOneMore(m: map<Id, Endpoints>, news: seq<NodeLocation>, i: nat)
    requires i < |news|
    ensures m + Latest(news[..i + 1]) == (m + Latest(news[..i]))[news[i].id := news[i].endpoints]
    ensures Latest(news[..i + 1]).Keys == Latest(news[..i]).Keys + {news[i].id}
  {
    assert news[..i + 1][..i] == news[..i];
  }

  /** The nodes known after these polls; None is a poll that failed. */
  function Known(initial: map<Id, Endpoints>, polls: seq<Option<seq<NodeLocation>>>): map<Id, Endpoints> {
    if polls == [] then initial
    else
      match polls[|polls| - 1]
      case None => Known(initial, polls[..|polls| - 1])
      case Some(news) => Latest(news)
  }

  /** Only the last successful poll counts, and nothing but it. */
  lemma {:induction false} LastSuccessCounts(initial: map<Id, Endpoints>, polls: seq<Option<seq<NodeLocation>>>, i: nat)
    ensures (forall k :: 0 <= k < |polls| ==> polls[k] == None) ==> Known(initial, polls) == initial
    ensures i < |polls| && polls[i].Some? && (forall k :: i < k < |polls| ==> polls[k] == None) ==>
              Known(initial, polls) == Latest(polls[i].value)
    decreases |polls|
  {
    if polls != [] {
      LastSuccessCounts(initial, polls[..|polls| - 1], i);
    }
  }

  class Poller {
    var locs: seq<NodeLocation>
    /** What the overlay was last told about each node. */
    var overlay: map<Id, Endpoints>

    /** The list stands for `m`, and the overlay agrees with it. */
    ghost predicate Agrees(m: map<Id, Endpoints>)
      reads this
    {
      Represents(locs, m) && Told(overlay, m)
    }

    /** All the nodes known at first are made known to the overlay. */
    constructor (eps: seq<NodeLocation>)
      requires forall i, j :: 0 <= i < j < |eps| ==> eps[i].id != eps[j].id
      ensures Agrees(Latest(eps)) && locs == eps
    {
      locs, overlay := eps, map[];
      new;
      ghost var m: map<Id, Endpoints> := map[];
      for i := 0 to |eps|
        invariant locs == eps && m == Latest(eps[..i]) && overlay == m && Represents(eps[..i], m)
      {
        Discover(eps[i]);
        assert eps[..i + 1] == eps[..i] + [eps[i]];
        assert forall k :: 0 <= k < i ==> eps[..i][k] == eps[k];
        RepresentsAppend(eps[..i], m, eps[i]);
        m := m[eps[i].id := eps[i].endpoints];
      }
      assert eps[..|eps|] == eps;
    }

    method Discover(n: NodeLocation)
      modifies this`overlay
      ensures overlay == old(overlay)[n.id := n.endpoints]
    {
      overlay := overlay[n.id := n.endpoints];
    }

    method Find(id: Id) returns (r: nat)
      ensures r <= |locs|
      ensures r < |locs| ==> locs[r].id == id
      ensures forall i :: 0 <= i < r ==> locs[i].id != id
    {
      r := 0;
      while r < |locs| && locs[r].id != id
        invariant r <= |locs| && forall i :: 0 <= i < r ==> locs[i].id != id
      {
        r := r + 1;
      }
    }

    /** One fetched node: the overlay hears of it only when it is new or moved. */
    method Absorb(n: NodeLocation, ghost m: map<Id, Endpoints>)
      requires Agrees(m)
      modifies this
      ensures Agrees(m[n.id := n.endpoints])
      ensures overlay == if n.id in m && m[n.id] == n.endpoints then old(overlay) else old(overlay)[n.id := n.endpoints]
    {
      var i := Find(n.id);
      if i == |locs| {
        RepresentsAppend(locs, m, n);
        locs := locs + [n];
        Discover(n);
      } else {
        RepresentsUpdate(locs, m, i, n);
        if locs[i].endpoints != n.endpoints {
          locs := locs[i := n];
          Discover(n);
        } else {
          assert locs[i := n] == locs;
        }
      }
    }

    /** One successful poll: the list becomes exactly what was fetched, and the overlay agrees. */
    method Poll(news: seq<NodeLocation>, ghost m: map<Id, Endpoints>)
      requires Agrees(m)
      modifies this
      ensures Agrees(Latest(news))
    {
      var ids: set<Id> := {};
      ghost var known := m;
      assert m + Latest([]) == m;
      for i := 0 to |news|
        invariant Agrees(known) && known == m + Latest(news[..i]) && ids == Latest(news[..i]).Keys
      {
        ids := ids + {news[i].id};
        Absorb(news[i], known);
        LatestOneMore(m, news, i);
        known := known[news[i].id := news[i].endpoints];
      }
      assert news[..|news|] == news;
      RepresentsKept(locs, m, ids, Latest(news));
      RemoveUnless(ids);
    }

    method RemoveUnless(ids: set<Id>)
      modifies this`locs
      ensures locs == Kept(old(locs), ids)
    {
      var kept: seq<NodeLocation> := [];
      for i := 0 to |locs|
        invariant locs == old(locs) && kept == Kept(locs[..i], ids)
      {
        assert locs[..i + 1][..i] == locs[..i];
        if locs[i].id in ids {
          kept := kept + [locs[i]];
        }
      }
      assert locs[..|locs|] == locs;
      locs := kept;
    }

    /** Any run of successful and failed polls. */
    method Run(polls: seq<Option<seq<NodeLocation>>>, ghost initial: map<Id, Endpoints>)
      requires Agrees(initial)
      modifies this
      ensures Agrees(Known(initial, polls))
    {
      for i := 0 to |polls|
        invariant Agrees(Known(initial, polls[..i]))
      {
        assert polls[..i + 1][..i] == polls[..i];
        if polls[i].Some? {
          Poll(polls[i].value, Known(initial, polls[..i]));
        }
      }
      assert polls[..|polls|] == polls;
    }
  }
}
