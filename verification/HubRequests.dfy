/**
 Requests on a network document, taken as a load followed later by a save, in
 every interleaving.

 The main results: requests on different entries can overlap at will, with the
 outcome of running them one at a time in the order of their saves; and for
 requests on the same entry, the exact condition under which that holds.
 */
module HubRequests {
  import opened Options
  import opened HubNetwork

  datatype Request =
    | PassportPut(user: User, passport: Passport)
    | PassportDelete(user: User)
    | EndpointPut(user: User, node: Node, endpoints: Endpoints)
    | EndpointDelete(user: User, node: Node)
    | StatsPut(user: User, node: Node, stats: Stats)

  datatype Field = Passports | AllEndpoints | Storages

  /** The entry of a document that a request edits. */
  datatype Entry = Entry(field: Field, user: User)

  function EntryOf(r: Request): Entry {
    Entry(
      match r
      case PassportPut(_, _) => Passports
      case PassportDelete(_) => Passports
      case EndpointPut(_, _, _) => AllEndpoints
      case EndpointDelete(_, _) => AllEndpoints
      case StatsPut(_, _, _) => Storages,
      r.user)
  }

  function Edit(d: Draft, r: Request): Draft {
    match r
    case PassportPut(u, p) => d.(passports := d.passports[u := Some(p)])
    case PassportDelete(u) => d.(passports := d.passports[u := None])
    case EndpointPut(u, n, e) => d.(endpoints := d.endpoints[u := OrEmpty(Get(d.endpoints, u))[n := Some(e)]])
    case EndpointDelete(u, n) => d.(endpoints := d.endpoints[u := OrEmpty(Get(d.endpoints, u))[n := None]])
    case StatsPut(u, n, s) => d.(storages := d.storages[u := OrEmpty(Get(d.storages, u))[n := s]])
  }

  /** What request `r` sends when it loaded `snapshot`. */
  function Change(snapshot: Doc, r: Request): Draft {
    Diff(Load(snapshot), Edit(Load(snapshot), r))
  }

  /** The two documents have the same content in entry `e`. */
  predicate Agree(a: Doc, b: Doc, e: Entry) {
    match e.field
    case Passports => Get(a.passports, e.user) == Get(b.passports, e.user)
    case AllEndpoints => Get(a.endpoints, e.user) == Get(b.endpoints, e.user)
    case Storages => Get(a.storages, e.user) == Get(b.storages, e.user)
  }

  /** The document after the request, run alone. */
  function Serve(doc: Doc, r: Request): Doc {
    Strip(Edit(Load(doc), r))
  }

  lemma ServedAlone(doc: Doc, r: Request)
    requires NoEmptyUser(doc)
    ensures Merge(doc, Change(doc, r)) == Ok(Serve(doc, r)) && NoEmptyUser(Serve(doc, r))
  {
    SaveStoresTheEdit(doc, Edit(Load(doc), r));
  }

  lemma DiffOfOnePassport(m: map<User, Passport>, u: User, v: Option<Passport>)
    ensures
      var original := map x | x in m :: Some(m[x]);
      DiffPassports(original, original[u := v]) == if Get(m, u) == v then map[] else map[u := v]
  {
  }

  lemma DiffOfOneEntry<V>(m: map<User, V>, u: User, v: V)
    ensures DiffEntries(m, m[u := v]) == if Get(m, u) == Some(v) then map[] else map[u := v]
  {
  }

  lemma DiffOfSame<V>(m: map<User, V>)
    ensures DiffEntries(m, m) == map[]
  {
  }

  lemma DiffOfSamePassports(m: map<User, Option<Passport>>)
    ensures DiffPassports(m, m) == map[]
  {
  }

  /** The endpoints of a user as loaded, with a new value for one node. */
  function EditedNodes(
    nodes: Option<map<Node, Endpoints>>, n: Node, v: Option<Endpoints>): map<Node, Option<Endpoints>>
  {
    LoadNodes(OrEmpty(nodes))[n := v]
  }

  /** What a request on endpoints sends for its user: all the endpoints it loaded, edited, unless nothing changed. */
  function SentNodes(
    nodes: Option<map<Node, Endpoints>>, n: Node, v: Option<Endpoints>): Option<map<Node, Option<Endpoints>>>
  {
    var edited := EditedNodes(nodes, n, v);
    if nodes.Some? && LoadNodes(nodes.value) == edited then None else Some(edited)
  }

  function Single<V>(u: User, v: Option<V>): map<User, V> {
    if v.Some? then map[u := v.value] else map[]
  }

  /** A request sends a change of its own entry, computed from that entry, and nothing else. */
  function ChangeOf(doc: Doc, r: Request): Draft {
    var u := r.user;
    match r
    case PassportPut(_, p) =>
      Draft(Single(u, if Get(doc.passports, u) == Some(p) then None else Some(Some(p))), map[], map[])
    case PassportDelete(_) =>
      Draft(Single(u, if Get(doc.passports, u) == None then None else Some(None)), map[], map[])
    case EndpointPut(_, n, e) =>
      Draft(map[], Single(u, SentNodes(Get(doc.endpoints, u), n, Some(e))), map[])
    case EndpointDelete(_, n) =>
      Draft(map[], Single(u, SentNodes(Get(doc.endpoints, u), n, None)), map[])
    case StatsPut(_, n, s) =>
      var nodes := OrEmpty(Get(doc.storages, u))[n := s];
      Draft(map[], map[], Single(u, if Get(doc.storages, u) == Some(nodes) then None else Some(nodes)))
  }

  lemma ChangeIsLocal(doc: Doc, r: Request)
    ensures Change(doc, r) == ChangeOf(doc, r)
  {
    var d := Load(doc);
    var u := r.user;
    DiffOfSamePassports(d.passports);
    DiffOfSame(d.endpoints);
    DiffOfSame(d.storages);
    match r
    case PassportPut(_, p) => DiffOfOnePassport(doc.passports, u, Some(p));
    case PassportDelete(_) => DiffOfOnePassport(doc.passports, u, None);
    case EndpointPut(_, n, e) =>
      DiffOfOneEntry(d.endpoints, u, OrEmpty(Get(d.endpoints, u))[n := Some(e)]);
      LoadedNodes(doc, u);
    case EndpointDelete(_, n) =>
      DiffOfOneEntry(d.endpoints, u, OrEmpty(Get(d.endpoints, u))[n := None]);
      LoadedNodes(doc, u);
    case StatsPut(_, n, s) => DiffOfOneEntry(d.storages, u, OrEmpty(Get(d.storages, u))[n := s]);
  }

  lemma LoadedNodes(doc: Doc, u: User)
    ensures OrEmpty(Get(Load(doc).endpoints, u)) == LoadNodes(OrEmpty(Get(doc.endpoints, u)))
  {
  }

  /** What a request sends depends on its own entry alone. */
  lemma SameChange(a: Doc, b: Doc, r: Request)
    requires Agree(a, b, EntryOf(r))
    ensures Change(a, r) == Change(b, r)
  {
    ChangeIsLocal(a, r);
    ChangeIsLocal(b, r);
  }

  /** What is stored once request `r`, which loaded `snapshot`, saves over `stored`; a failed save stores nothing. */
  function SaveOver(stored: Doc, snapshot: Doc, r: Request): Doc {
    var merged := Merge(stored, Change(snapshot, r));
    if merged.Ok? then merged.value else stored
  }

  lemma SaveKeepsUsers(stored: Doc, snapshot: Doc, r: Request)
    requires NoEmptyUser(stored)
    ensures NoEmptyUser(SaveOver(stored, snapshot, r))
  {
    var change := Change(snapshot, r);
    if Merge(stored, change).Ok? {
      MergeKeepsUsers(stored, change);
    }
  }

  /** The change says nothing about entry `e`. */
  predicate Silent(change: Draft, e: Entry) {
    match e.field
    case Passports => e.user !in change.passports
    case AllEndpoints => e.user !in change.endpoints
    case Storages => e.user !in change.storages
  }

  lemma ChangeElsewhere(snapshot: Doc, r: Request, e: Entry)
    requires e != EntryOf(r)
    ensures Silent(Change(snapshot, r), e)
  {
    ChangeIsLocal(snapshot, r);
  }

  lemma MergeElsewhere(stored: Doc, change: Draft, e: Entry)
    requires Silent(change, e) && Merge(stored, change).Ok?
    ensures Agree(Merge(stored, change).value, stored, e)
  {
    match e.field
    case Passports => assert Get(Overlay(stored.passports, change.passports), e.user) == Get(stored.passports, e.user);
    case AllEndpoints => assert Get(change.endpoints, e.user) == None;
    case Storages =>
  }

  /** A save leaves the other entries alone, whatever was loaded. */
  lemma SaveIsLocal(stored: Doc, snapshot: Doc, r: Request, e: Entry)
    requires e != EntryOf(r)
    ensures Agree(SaveOver(stored, snapshot, r), stored, e)
  {
    var change := Change(snapshot, r);
    ChangeElsewhere(snapshot, r, e);
    if Merge(stored, change).Ok? {
      MergeElsewhere(stored, change, e);
    }
  }

  /** A request leaves the other entries alone. */
  lemma ServeIsLocal(doc: Doc, r: Request, e: Entry)
    requires NoEmptyUser(doc) && e != EntryOf(r)
    ensures Agree(Serve(doc, r), doc, e)
  {
    ServedAlone(doc, r);
    SaveIsLocal(doc, doc, r, e);
  }

  // ---------------------------------------------------------------------
  // Interleavings.

  datatype Flight = Flight(request: Request, snapshot: Doc)

  /** The stored document, the requests that loaded and did not save yet, and those that saved, in order. */
  datatype State = State(stored: Doc, flights: map<int, Flight>, saved: seq<Request>)

  datatype Step = Begin(id: int, request: Request) | Finish(id: int)

  predicate Enabled(st: State, step: Step) {
    match step
    case Begin(id, _) => id !in st.flights
    case Finish(id) => id in st.flights
  }

  function Apply(st: State, step: Step): State
    requires Enabled(st, step)
  {
    match step
    case Begin(id, r) => st.(flights := st.flights[id := Flight(r, st.stored)])
    case Finish(id) =>
      var f := st.flights[id];
      State(SaveOver(st.stored, f.snapshot, f.request), st.flights - {id}, st.saved + [f.request])
  }

  /** A request that begins touches no entry of a request under way. */
  predicate Separate(st: State, step: Step) {
    step.Begin? ==> forall id :: id in st.flights ==> EntryOf(st.flights[id].request) != EntryOf(step.request)
  }

  function Exec(st: State, steps: seq<Step>): Option<State>
    decreases |steps|
  {
    if steps == [] then Some(st)
    else if Enabled(st, steps[0]) then Exec(Apply(st, steps[0]), steps[1..])
    else None
  }

  predicate SeparateRun(st: State, steps: seq<Step>)
    requires Exec(st, steps).Some?
    decreases |steps|
  {
    steps == [] || (Separate(st, steps[0]) && SeparateRun(Apply(st, steps[0]), steps[1..]))
  }

  /** The requests run one at a time. */
  function Serially(doc: Doc, requests: seq<Request>): Doc {
    if requests == [] then doc
    else Serve(Serially(doc, requests[..|requests| - 1]), requests[|requests| - 1])
  }

  ghost predicate Inv(doc: Doc, st: State) {
    && NoEmptyUser(st.stored)
    && st.stored == Serially(doc, st.saved)
    && (forall id :: id in st.flights ==>
          Agree(st.flights[id].snapshot, st.stored, EntryOf(st.flights[id].request)))
    && (forall id, id' :: id in st.flights && id' in st.flights && id != id' ==>
          EntryOf(st.flights[id].request) != EntryOf(st.flights[id'].request))
  }

  lemma FinishKeepsInv(doc: Doc, st: State, id: int)
    requires Inv(doc, st) && id in st.flights
    ensures Inv(doc, Apply(st, Finish(id)))
  {
    var f, st' := st.flights[id], Apply(st, Finish(id));
    SameChange(f.snapshot, st.stored, f.request);
    ServedAlone(st.stored, f.request);
    assert st'.saved[..|st.saved|] == st.saved;
    forall other | other in st'.flights
      ensures Agree(st'.flights[other].snapshot, st'.stored, EntryOf(st'.flights[other].request))
    {
      ServeIsLocal(st.stored, f.request, EntryOf(st.flights[other].request));
    }
  }

  lemma {:induction false} RunKeepsInv(doc: Doc, st: State, steps: seq<Step>)
    requires Inv(doc, st) && Exec(st, steps).Some? && SeparateRun(st, steps)
    ensures Inv(doc, Exec(st, steps).value)
    decreases |steps|
  {
    if steps != [] {
      if steps[0].Finish? {
        FinishKeepsInv(doc, st, steps[0].id);
      }
      RunKeepsInv(doc, Apply(st, steps[0]), steps[1..]);
    }
  }

  /**
   In every interleaving in which requests under way at the same time touch
   different entries, the stored document is that of running the requests one
   at a time in the order of their saves.
   */
  lemma Serializable(doc: Doc, steps: seq<Step>)
    requires NoEmptyUser(doc) && Exec(State(doc, map[], []), steps).Some?
    requires SeparateRun(State(doc, map[], []), steps)
    ensures
      var st := Exec(State(doc, map[], []), steps).value;
      st.stored == Serially(doc, st.saved) && NoEmptyUser(st.stored)
  {
    RunKeepsInv(doc, State(doc, map[], []), steps);
  }

  // ---------------------------------------------------------------------
  // Requests under way together on the same entry.

  function Lookup<V>(nodes: Option<map<Node, V>>, n: Node): Option<V> {
    Get(OrEmpty(nodes), n)
  }

  predicate NotEmpty(nodes: Option<map<Node, Endpoints>>) {
    nodes.Some? ==> nodes.value != map[]
  }

  lemma MergeUserLookup(nodes: Option<map<Node, Endpoints>>, change: Option<map<Node, Option<Endpoints>>>, n: Node)
    requires NotEmpty(nodes)
    ensures NotEmpty(MergeUser(nodes, change))
    ensures Lookup(MergeUser(nodes, change), n) ==
              if change.Some? && n in change.value then change.value[n] else Lookup(nodes, n)
  {
    if change.Some? && change.value != map[] {
      var merged := Overlay(OrEmpty(nodes), change.value);
      assert Get(merged, n) == if n in change.value then change.value[n] else Get(OrEmpty(nodes), n);
    }
  }

  lemma SameNodes(a: Option<map<Node, Endpoints>>, b: Option<map<Node, Endpoints>>)
    requires NotEmpty(a) && NotEmpty(b) && forall n :: Lookup(a, n) == Lookup(b, n)
    ensures a == b
  {
    forall n ensures Get(OrEmpty(a), n) == Get(OrEmpty(b), n) {
      assert Lookup(a, n) == Lookup(b, n);
    }
    SameMap(OrEmpty(a), OrEmpty(b));
  }

  /** The endpoints of the user after one request that loaded `loaded` and saves over `nodes`. */
  function SavedOver(
    nodes: Option<map<Node, Endpoints>>, loaded: Option<map<Node, Endpoints>>, n: Node, v: Option<Endpoints>):
    Option<map<Node, Endpoints>>
  {
    MergeUser(nodes, SentNodes(loaded, n, v))
  }

  /** A save that sends something brings back every endpoint that it loaded. */
  lemma SavedOverLookup(
    nodes: Option<map<Node, Endpoints>>, loaded: Option<map<Node, Endpoints>>, n: Node, v: Option<Endpoints>, k: Node)
    requires NotEmpty(nodes) && NotEmpty(loaded)
    ensures NotEmpty(SavedOver(nodes, loaded, n, v))
    ensures Lookup(SavedOver(nodes, loaded, n, v), k) ==
              if v.Some? && Lookup(loaded, n) == v then Lookup(nodes, k)
              else if k == n then v
              else if Lookup(loaded, k).Some? then Lookup(loaded, k)
              else Lookup(nodes, k)
  {
    MergeUserLookup(nodes, SentNodes(loaded, n, v), k);
    var edited := EditedNodes(loaded, n, v);
    if v.Some? && Lookup(loaded, n) == v {
      assert LoadNodes(loaded.value) == edited;
    } else if loaded.Some? {
      assert n in edited && edited[n] == v;
      assert LoadNodes(loaded.value) != edited;
    }
  }

  /** The endpoints that a request leaves on its node. */
  function NewEndpoints(r: Request): Option<Endpoints>
    requires r.EndpointPut? || r.EndpointDelete?
  {
    if r.EndpointPut? then Some(r.endpoints) else None
  }

  /** `SavedOver` is what the merge does to the endpoints of the user. */
  lemma SavedOverIsMerge(stored: Doc, snapshot: Doc, r: Request)
    requires r.EndpointPut? || r.EndpointDelete?
    ensures
      Get(SaveOver(stored, snapshot, r).endpoints, r.user) ==
        SavedOver(Get(stored.endpoints, r.user), Get(snapshot.endpoints, r.user), r.node, NewEndpoints(r))
  {
    ChangeIsLocal(snapshot, r);
    var c := ChangeOf(snapshot, r);
    assert Get(MergeEndpoints(stored.endpoints, c.endpoints), r.user) ==
             MergeUser(Get(stored.endpoints, r.user), Get(c.endpoints, r.user));
  }

  /** The passport that a request leaves to its user. */
  function NewPassport(r: Request): Option<Passport>
    requires r.PassportPut? || r.PassportDelete?
  {
    if r.PassportPut? then Some(r.passport) else None
  }

  /** A request that finds its passport as it wants it sends nothing; the removal of one that is gone fails. */
  lemma SavedPassport(stored: Doc, snapshot: Doc, r: Request)
    requires r.PassportPut? || r.PassportDelete?
    ensures
      var w := NewPassport(r);
      Get(SaveOver(stored, snapshot, r).passports, r.user) ==
        if Get(snapshot.passports, r.user) == w then Get(stored.passports, r.user) else w
  {
    ChangeIsLocal(snapshot, r);
    var c := ChangeOf(snapshot, r);
    assert r.user in c.passports <==> Get(snapshot.passports, r.user) != NewPassport(r);
    if RemovesMissing(stored.passports, c.passports) {
      assert c.passports == map[r.user := None];
    }
  }

  /** A save of statistics replaces those of all the nodes of the user by the ones it loaded. */
  lemma SavedStats(stored: Doc, snapshot: Doc, r: Request)
    requires r.StatsPut?
    ensures
      Get(SaveOver(stored, snapshot, r).storages, r.user) ==
        StatsOver(Get(stored.storages, r.user), Get(snapshot.storages, r.user), r.node, r.stats)
  {
    ChangeIsLocal(snapshot, r);
    var loaded := Get(snapshot.storages, r.user);
    if Lookup(loaded, r.node) == Some(r.stats) {
      assert OrEmpty(loaded)[r.node := r.stats] == loaded.value;
    }
  }

  /** The save of endpoints has the effect of the request on what is stored. */
  ghost predicate EndpointsCurrent(
    stored: Option<map<Node, Endpoints>>, loaded: Option<map<Node, Endpoints>>, n: Node, w: Option<Endpoints>)
  {
    if w.Some? && Lookup(loaded, n) == w then Lookup(stored, n) == w
    else forall k :: k != n && Lookup(loaded, k).Some? ==> Lookup(stored, k) == Lookup(loaded, k)
  }

  lemma EndpointsExactly(
    stored: Option<map<Node, Endpoints>>, loaded: Option<map<Node, Endpoints>>, n: Node, w: Option<Endpoints>)
    requires NotEmpty(stored) && NotEmpty(loaded)
    ensures SavedOver(stored, loaded, n, w) == SavedOver(stored, stored, n, w) <==>
              EndpointsCurrent(stored, loaded, n, w)
  {
    var late, alone := SavedOver(stored, loaded, n, w), SavedOver(stored, stored, n, w);
    forall k
      ensures NotEmpty(late) && NotEmpty(alone)
      ensures Lookup(alone, k) == if k == n then w else Lookup(stored, k)
      ensures Lookup(late, k) ==
                if w.Some? && Lookup(loaded, n) == w then Lookup(stored, k)
                else if k == n then w
                else if Lookup(loaded, k).Some? then Lookup(loaded, k)
                else Lookup(stored, k)
    {
      SavedOverLookup(stored, loaded, n, w, k);
      SavedOverLookup(stored, stored, n, w, k);
    }
    if EndpointsCurrent(stored, loaded, n, w) {
      assert Lookup(alone, n) == w;
      SameNodes(late, alone);
    } else if w.Some? && Lookup(loaded, n) == w {
      assert Lookup(late, n) != Lookup(alone, n);
    } else {
      var k :| k != n && Lookup(loaded, k).Some? && Lookup(stored, k) != Lookup(loaded, k);
      assert Lookup(late, k) != Lookup(alone, k);
    }
  }

  /** The save of statistics has the effect of the request on what is stored. */
  ghost predicate StatsCurrent(stored: Option<map<Node, Stats>>, loaded: Option<map<Node, Stats>>, n: Node, s: Stats) {
    if Lookup(loaded, n) == Some(s) then Lookup(stored, n) == Some(s)
    else forall k :: k != n ==> Lookup(stored, k) == Lookup(loaded, k)
  }

  lemma SameStats(a: Option<map<Node, Stats>>, b: Option<map<Node, Stats>>, n: Node, s: Stats)
    ensures OrEmpty(a)[n := s] == OrEmpty(b)[n := s] <==> forall k :: k != n ==> Lookup(a, k) == Lookup(b, k)
  {
    var a', b' := OrEmpty(a)[n := s], OrEmpty(b)[n := s];
    if forall k :: k != n ==> Lookup(a, k) == Lookup(b, k) {
      forall k ensures Get(a', k) == Get(b', k) {
        assert k != n ==> Lookup(a, k) == Lookup(b, k);
      }
      SameMap(a', b');
    } else {
      var k :| k != n && Lookup(a, k) != Lookup(b, k);
      assert Get(a', k) != Get(b', k);
    }
  }

  /** The statistics of the user after a save over `stored` by a request that loaded `loaded`. */
  function StatsOver(
    stored: Option<map<Node, Stats>>, loaded: Option<map<Node, Stats>>, n: Node, s: Stats): Option<map<Node, Stats>>
  {
    if Lookup(loaded, n) == Some(s) then stored else Some(OrEmpty(loaded)[n := s])
  }

  lemma StatsExactly(stored: Option<map<Node, Stats>>, loaded: Option<map<Node, Stats>>, n: Node, s: Stats)
    ensures StatsOver(stored, loaded, n, s) == StatsOver(stored, stored, n, s) <==> StatsCurrent(stored, loaded, n, s)
  {
    if Lookup(stored, n) == Some(s) {
      assert OrEmpty(stored)[n := s] == stored.value;
    }
    if Lookup(loaded, n) == Some(s) {
      assert Lookup(StatsOver(stored, stored, n, s), n) == Some(s);
    } else {
      SameStats(stored, loaded, n, s);
    }
  }

  /** What the request loaded still holds of `stored`, as far as the request needs it. */
  ghost predicate Current(stored: Doc, snapshot: Doc, r: Request) {
    var u := r.user;
    match r
    case EndpointPut(_, n, e) => EndpointsCurrent(Get(stored.endpoints, u), Get(snapshot.endpoints, u), n, Some(e))
    case EndpointDelete(_, n) => EndpointsCurrent(Get(stored.endpoints, u), Get(snapshot.endpoints, u), n, None)
    case StatsPut(_, n, s) => StatsCurrent(Get(stored.storages, u), Get(snapshot.storages, u), n, s)
    case _ => Get(snapshot.passports, u) == NewPassport(r) ==> Get(stored.passports, u) == NewPassport(r)
  }

  lemma SameDoc(a: Doc, b: Doc)
    requires forall e: Entry :: Agree(a, b, e)
    ensures a == b
  {
    forall u
      ensures Get(a.passports, u) == Get(b.passports, u)
      ensures Get(a.endpoints, u) == Get(b.endpoints, u)
      ensures Get(a.storages, u) == Get(b.storages, u)
    {
      assert Agree(a, b, Entry(Passports, u)) && Agree(a, b, Entry(AllEndpoints, u)) && Agree(a, b, Entry(Storages, u));
    }
    SameMap(a.passports, b.passports);
    SameMap(a.endpoints, b.endpoints);
    SameMap(a.storages, b.storages);
  }

  /** Two saves of one request over the same document differ in the entry of the request, if at all. */
  lemma SavesDiffer(stored: Doc, a: Doc, b: Doc, r: Request)
    ensures SaveOver(stored, a, r) == SaveOver(stored, b, r) <==>
              Agree(SaveOver(stored, a, r), SaveOver(stored, b, r), EntryOf(r))
  {
    var x, y := SaveOver(stored, a, r), SaveOver(stored, b, r);
    if Agree(x, y, EntryOf(r)) {
      forall e: Entry ensures Agree(x, y, e) {
        if e != EntryOf(r) {
          SaveIsLocal(stored, a, r, e);
          SaveIsLocal(stored, b, r, e);
        }
      }
      SameDoc(x, y);
    }
  }

  lemma EntryExactly(stored: Doc, snapshot: Doc, r: Request)
    requires NoEmptyUser(stored) && NoEmptyUser(snapshot)
    ensures Agree(SaveOver(stored, snapshot, r), SaveOver(stored, stored, r), EntryOf(r)) <==>
              Current(stored, snapshot, r)
  {
    match EntryOf(r).field
    case Passports =>
      SavedPassport(stored, snapshot, r);
      SavedPassport(stored, stored, r);
    case Storages =>
      SavedStats(stored, snapshot, r);
      SavedStats(stored, stored, r);
      StatsExactly(Get(stored.storages, r.user), Get(snapshot.storages, r.user), r.node, r.stats);
    case AllEndpoints =>
      SavedOverIsMerge(stored, snapshot, r);
      SavedOverIsMerge(stored, stored, r);
      EndpointsExactly(Get(stored.endpoints, r.user), Get(snapshot.endpoints, r.user), r.node, NewEndpoints(r));
  }

  /**
   A save over a document that changed since it was loaded has the effect of
   the request on that document exactly when what was loaded is still current.
   */
  lemma SaveExactly(stored: Doc, snapshot: Doc, r: Request)
    requires NoEmptyUser(stored) && NoEmptyUser(snapshot)
    ensures SaveOver(stored, snapshot, r) == Serve(stored, r) <==> Current(stored, snapshot, r)
  {
    ServedAlone(stored, r);
    SavesDiffer(stored, snapshot, stored, r);
    EntryExactly(stored, snapshot, r);
  }

  /** Each save of the run finds what it loaded still current. */
  ghost predicate CurrentRun(st: State, steps: seq<Step>)
    requires Exec(st, steps).Some?
    decreases |steps|
  {
    steps == [] ||
    (&& (steps[0].Finish? ==>
           var f := st.flights[steps[0].id]; Current(st.stored, f.snapshot, f.request))
     && CurrentRun(Apply(st, steps[0]), steps[1..]))
  }

  /** At every point of the run, what is stored is the outcome of the requests saved so far, one at a time. */
  predicate SerialRun(doc: Doc, st: State, steps: seq<Step>)
    requires Exec(st, steps).Some?
    decreases |steps|
  {
    && st.stored == Serially(doc, st.saved)
    && (steps == [] || SerialRun(doc, Apply(st, steps[0]), steps[1..]))
  }

  /** No document of the run lists a user without an endpoint. */
  predicate Sound(st: State) {
    NoEmptyUser(st.stored) && forall id :: id in st.flights ==> NoEmptyUser(st.flights[id].snapshot)
  }

  lemma StepKeepsSound(st: State, step: Step)
    requires Sound(st) && Enabled(st, step)
    ensures Sound(Apply(st, step))
  {
    if step.Finish? {
      SaveKeepsUsers(st.stored, st.flights[step.id].snapshot, st.flights[step.id].request);
    }
  }

  lemma {:induction false} SerialFrom(doc: Doc, st: State, steps: seq<Step>)
    requires Sound(st) && st.stored == Serially(doc, st.saved) && Exec(st, steps).Some?
    ensures SerialRun(doc, st, steps) <==> CurrentRun(st, steps)
    decreases |steps|
  {
    if steps != [] {
      var st' := Apply(st, steps[0]);
      StepKeepsSound(st, steps[0]);
      if steps[0].Finish? {
        var f := st.flights[steps[0].id];
        SaveExactly(st.stored, f.snapshot, f.request);
        assert st'.saved[..|st.saved|] == st.saved;
      }
      if st'.stored == Serially(doc, st'.saved) {
        SerialFrom(doc, st', steps[1..]);
      }
    }
  }

  /**
   Every interleaving of every set of requests, on the same entries or not,
   stores what the serial order of the saves does, at every point, if and only
   if each save finds what it loaded still current.
   */
  lemma SerialExactly(doc: Doc, steps: seq<Step>)
    requires NoEmptyUser(doc) && Exec(State(doc, map[], []), steps).Some?
    ensures SerialRun(doc, State(doc, map[], []), steps) <==> CurrentRun(State(doc, map[], []), steps)
  {
    SerialFrom(doc, State(doc, map[], []), steps);
  }

  /** Two requests that both loaded `doc` may save one after the other. */
  predicate Harmless(doc: Doc, first: Request, second: Request) {
    EntryOf(first) != EntryOf(second) ||
    match second
    case StatsPut(u, n, b) =>
      var loaded := Get(doc.storages, u);
      if first.node == n then Lookup(loaded, n) == Some(b) ==> first.stats == b
      else Lookup(loaded, n) == Some(b) || Lookup(loaded, first.node) == Some(first.stats)
    case PassportPut(u, _) => Get(doc.passports, u) == NewPassport(second) ==> NewPassport(first) == NewPassport(second)
    case PassportDelete(u) => Get(doc.passports, u) == NewPassport(second) ==> NewPassport(first) == NewPassport(second)
    case _ =>
      var loaded := Get(doc.endpoints, second.user);
      var v, w := NewEndpoints(first), NewEndpoints(second);
      var silent := w.Some? && Lookup(loaded, second.node) == w;
      if first.node == second.node then silent ==> v == w
      else silent || Lookup(loaded, first.node) == v || Lookup(loaded, first.node).None?
  }

  /** What a request leaves in its own entry when it runs alone. */
  lemma ServedEntry(doc: Doc, r: Request, k: Node)
    requires NoEmptyUser(doc)
    ensures
      var after := Serve(doc, r);
      match r
      case StatsPut(u, n, s) =>
        Lookup(Get(after.storages, u), k) == if k == n then Some(s) else Lookup(Get(doc.storages, u), k)
      case PassportPut(u, p) => Get(after.passports, u) == Some(p)
      case PassportDelete(u) => Get(after.passports, u) == None
      case _ =>
        Lookup(Get(after.endpoints, r.user), k) ==
          if k == r.node then NewEndpoints(r) else Lookup(Get(doc.endpoints, r.user), k)
  {
    ServedAlone(doc, r);
    match r
    case StatsPut(_, _, _) => SavedStats(doc, doc, r);
    case PassportPut(_, _) => SavedPassport(doc, doc, r);
    case PassportDelete(_) => SavedPassport(doc, doc, r);
    case _ =>
      SavedOverIsMerge(doc, doc, r);
      SavedOverLookup(Get(doc.endpoints, r.user), Get(doc.endpoints, r.user), r.node, NewEndpoints(r), k);
  }

  lemma StatsOverlap(doc: Doc, first: Request, second: Request)
    requires NoEmptyUser(doc) && EntryOf(first) == EntryOf(second) && second.StatsPut?
    ensures Harmless(doc, first, second) <==> Current(Serve(doc, first), doc, second)
  {
    forall k
      ensures Lookup(Get(Serve(doc, first).storages, first.user), k) ==
                if k == first.node then Some(first.stats) else Lookup(Get(doc.storages, first.user), k)
    {
      ServedEntry(doc, first, k);
    }
  }

  lemma EndpointsOverlap(doc: Doc, first: Request, second: Request)
    requires NoEmptyUser(doc) && EntryOf(first) == EntryOf(second) && (second.EndpointPut? || second.EndpointDelete?)
    ensures Harmless(doc, first, second) <==> Current(Serve(doc, first), doc, second)
  {
    forall k
      ensures Lookup(Get(Serve(doc, first).endpoints, first.user), k) ==
                if k == first.node then NewEndpoints(first) else Lookup(Get(doc.endpoints, first.user), k)
    {
      ServedEntry(doc, first, k);
    }
  }

  /**
   Any two requests load the same document; one saves, then the other. The
   outcome is that of running one after the other exactly when they are
   harmless to each other, which can be told from the document and the requests.
   */
  lemma OverlapExactly(doc: Doc, first: Request, second: Request)
    requires NoEmptyUser(doc)
    ensures
      var saved := SaveOver(doc, doc, first);
      && saved == Serve(doc, first)
      && (SaveOver(saved, doc, second) == Serve(saved, second) <==> Harmless(doc, first, second))
  {
    ServedAlone(doc, first);
    var saved := Serve(doc, first);
    if EntryOf(first) != EntryOf(second) {
      ServeIsLocal(doc, first, EntryOf(second));
      SameChange(doc, saved, second);
      ServedAlone(saved, second);
    } else {
      SaveExactly(saved, doc, second);
      match second
      case StatsPut(_, _, _) => StatsOverlap(doc, first, second);
      case PassportPut(u, _) => ServedEntry(doc, first, u);
      case PassportDelete(u) => ServedEntry(doc, first, u);
      case _ => EndpointsOverlap(doc, first, second);
    }
  }

  // ---------------------------------------------------------------------
  // The datastore and a handler.

  class Datastore {
    var stored: Doc

    constructor (doc: Doc)
      ensures stored == doc
    {
      stored := doc;
    }

    method Fetch() returns (doc: Doc)
      ensures doc == stored
    {
      doc := stored;
    }

    /** A failed update stores nothing. */
    method UpdateStored(diff: Draft) returns (ok: bool)
      modifies this
      ensures ok == Merge(old(stored), diff).Ok?
      ensures stored == if ok then Merge(old(stored), diff).value else old(stored)
    {
      var r := Update(stored, diff);
      ok := r.Ok?;
      if ok {
        stored := r.value;
      }
    }

    /** Load, edit and save with nothing in between. */
    method Handle(r: Request) returns (ok: bool)
      requires NoEmptyUser(stored)
      modifies this
      ensures ok && stored == Serve(old(stored), r) && NoEmptyUser(stored)
    {
      var snapshot := Fetch();
      ServedAlone(snapshot, r);
      var original := Load(snapshot);
      var edited := Edit(original, r);
      ok := UpdateStored(Diff(original, edited));
    }
  }
}
