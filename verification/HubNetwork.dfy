/**
 The network documents of the hub. A request loads a document, edits the copy,
 and saves the difference; the datastore merges the difference into whatever is
 stored by then. Nothing makes load and save atomic together.

 The main result here: the difference carries any edit of an unchanged document
 faithfully.
 */
module HubNetwork {
  import opened Options

  type User = string
  type Node = string

  /** Passports, endpoint lists and statistics are opaque. */
  type Passport = int
  type Endpoints = int
  type Stats = int

  /** What the datastore holds. */
  datatype Doc = Doc(
    passports: map<User, Passport>,
    endpoints: map<User, map<Node, Endpoints>>,
    storages: map<User, map<Node, Stats>>)

  /** The copy in memory, in which a null marks a deletion; also the form of a difference. */
  datatype Draft = Draft(
    passports: map<User, Option<Passport>>,
    endpoints: map<User, map<Node, Option<Endpoints>>>,
    storages: map<User, map<Node, Stats>>)

  datatype Error = NoSuchPassport

  function Get<V>(m: map<string, V>, k: string): Option<V> {
    if k in m then Some(m[k]) else None
  }

  /** The nodes of a user, who may be missing. */
  function OrEmpty<V>(nodes: Option<map<Node, V>>): map<Node, V> {
    if nodes.Some? then nodes.value else map[]
  }

  /** `m` with the changes `d`, where None removes. */
  function Overlay<V>(m: map<string, V>, d: map<string, Option<V>>): (r: map<string, V>)
    ensures forall k :: Get(r, k) == if k in d then d[k] else Get(m, k)
  {
    map k | k in m.Keys + d.Keys && (k in d ==> d[k].Some?) :: if k in d then d[k].value else m[k]
  }

  /** The endpoints of one user after a change; a user is dropped with the last endpoint. */
  function MergeUser(
    nodes: Option<map<Node, Endpoints>>, change: Option<map<Node, Option<Endpoints>>>): Option<map<Node, Endpoints>>
  {
    if change.None? || change.value == map[] then nodes
    else
      var merged := Overlay(OrEmpty(nodes), change.value);
      if merged == map[] then None else Some(merged)
  }

  function MergeEndpoints(
    m: map<User, map<Node, Endpoints>>, d: map<User, map<Node, Option<Endpoints>>>):
    (r: map<User, map<Node, Endpoints>>)
    ensures forall u :: Get(r, u) == MergeUser(Get(m, u), Get(d, u))
  {
    map u | u in m.Keys + d.Keys && MergeUser(Get(m, u), Get(d, u)).Some? :: MergeUser(Get(m, u), Get(d, u)).value
  }

  /** The changes remove a passport that is not there. */
  predicate RemovesMissing(passports: map<User, Passport>, d: map<User, Option<Passport>>) {
    exists u :: u in d && d[u].None? && u !in passports
  }

  /** What the update handler makes of the stored document. */
  function Merge(doc: Doc, diff: Draft): Result<Doc, Error> {
    if RemovesMissing(doc.passports, diff.passports) then Err(NoSuchPassport)
    else
      Ok(Doc(
        Overlay(doc.passports, diff.passports),
        MergeEndpoints(doc.endpoints, diff.endpoints),
        doc.storages + diff.storages))
  }

  function Load(doc: Doc): Draft {
    Draft(
      map u | u in doc.passports :: Some(doc.passports[u]),
      map u | u in doc.endpoints :: LoadNodes(doc.endpoints[u]),
      doc.storages)
  }

  function LoadNodes(nodes: map<Node, Endpoints>): map<Node, Option<Endpoints>> {
    map n | n in nodes :: Some(nodes[n])
  }

  /** The passports that differ; one that is missing counts as null. */
  function DiffPassports(
    original: map<User, Option<Passport>>, edited: map<User, Option<Passport>>): map<User, Option<Passport>>
  {
    map u | u in edited && (if u in original then original[u] else None) != edited[u] :: edited[u]
  }

  /** The entries of a dictionary that are new or differ. */
  function DiffEntries<V(==)>(original: map<User, V>, edited: map<User, V>): map<User, V> {
    map u | u in edited && Get(original, u) != Some(edited[u]) :: edited[u]
  }

  /** What a save sends: the entries of the copy that differ from the original. */
  function Diff(original: Draft, edited: Draft): Draft {
    Draft(
      DiffPassports(original.passports, edited.passports),
      DiffEntries(original.endpoints, edited.endpoints),
      DiffEntries(original.storages, edited.storages))
  }

  // ---------------------------------------------------------------------
  // The difference carries the edit.

  /** No user is listed without an endpoint. */
  predicate NoEmptyUser(doc: Doc) {
    forall u :: u in doc.endpoints ==> doc.endpoints[u] != map[]
  }

  /** The edit assigned into the dictionaries and removed no key. */
  predicate Extends(edited: Draft, doc: Doc) {
    && doc.passports.Keys <= edited.passports.Keys
    && doc.endpoints.Keys <= edited.endpoints.Keys
    && doc.storages.Keys <= edited.storages.Keys
    && forall u :: u in doc.endpoints ==> doc.endpoints[u].Keys <= edited.endpoints[u].Keys
  }

  function StripNodes(nodes: map<Node, Option<Endpoints>>): map<Node, Endpoints> {
    map n | n in nodes && nodes[n].Some? :: nodes[n].value
  }

  function StripPassports(passports: map<User, Option<Passport>>): map<User, Passport> {
    map u | u in passports && passports[u].Some? :: passports[u].value
  }

  function StripUsers(users: map<User, map<Node, Option<Endpoints>>>): map<User, map<Node, Endpoints>> {
    map u | u in users && StripNodes(users[u]) != map[] :: StripNodes(users[u])
  }

  /** The copy without its deletion marks, and without users that they leave empty. */
  function Strip(d: Draft): Doc {
    Doc(StripPassports(d.passports), StripUsers(d.endpoints), d.storages)
  }

  /** One user: the merge of the changes that a save sends is the edited entry without its marks. */
  lemma MergedUser(nodes: Option<map<Node, Endpoints>>, edited: map<Node, Option<Endpoints>>)
    requires nodes.Some? ==> nodes.value != map[] && nodes.value.Keys <= edited.Keys
    ensures
      var change := if nodes.Some? && edited == LoadNodes(nodes.value) then None else Some(edited);
      MergeUser(nodes, change) == if StripNodes(edited) == map[] then None else Some(StripNodes(edited))
  {
    var before := OrEmpty(nodes);
    OverlayAll(before, edited);
    if nodes.Some? && edited == LoadNodes(nodes.value) {
      assert StripNodes(edited) == nodes.value;
    }
  }

  lemma OverlayAll(m: map<Node, Endpoints>, d: map<Node, Option<Endpoints>>)
    requires m.Keys <= d.Keys
    ensures Overlay(m, d) == StripNodes(d)
  {
    assert forall k :: Get(Overlay(m, d), k) == Get(StripNodes(d), k);
    SameMap(Overlay(m, d), StripNodes(d));
  }

  lemma SameMap<V>(a: map<string, V>, b: map<string, V>)
    requires forall k :: Get(a, k) == Get(b, k)
    ensures a == b
  {
    forall k ensures k in a <==> k in b {
      assert Get(a, k) == Get(b, k);
    }
    forall k | k in a ensures a[k] == b[k] {
      assert Get(a, k) == Get(b, k);
    }
  }

  lemma MergeKeepsUsers(doc: Doc, diff: Draft)
    requires NoEmptyUser(doc) && Merge(doc, diff).Ok?
    ensures NoEmptyUser(Merge(doc, diff).value)
  {
  }

  lemma SavedEndpoints(m: map<User, map<Node, Endpoints>>, edited: map<User, map<Node, Option<Endpoints>>>)
    requires forall u :: u in m ==> m[u] != map[] && u in edited && m[u].Keys <= edited[u].Keys
    ensures
      var original := map u | u in m :: LoadNodes(m[u]);
      MergeEndpoints(m, DiffEntries(original, edited)) == StripUsers(edited)
  {
    var original := map u | u in m :: LoadNodes(m[u]);
    var diff := DiffEntries(original, edited);
    var r := MergeEndpoints(m, diff);
    forall u ensures Get(r, u) == Get(StripUsers(edited), u) {
      assert Get(r, u) == MergeUser(Get(m, u), Get(diff, u));
      if u in edited {
        MergedUser(Get(m, u), edited[u]);
      }
    }
    SameMap(r, StripUsers(edited));
  }

  lemma SavedPassports(m: map<User, Passport>, edited: map<User, Option<Passport>>)
    requires m.Keys <= edited.Keys
    ensures
      var diff := DiffPassports(map u | u in m :: Some(m[u]), edited);
      && Overlay(m, diff) == StripPassports(edited)
      && forall u :: u in diff && diff[u].None? ==> u in m
  {
    var diff := DiffPassports(map u | u in m :: Some(m[u]), edited);
    forall u ensures Get(Overlay(m, diff), u) == Get(StripPassports(edited), u) {
      assert Get(Overlay(m, diff), u) == if u in diff then diff[u] else Get(m, u);
    }
    SameMap(Overlay(m, diff), StripPassports(edited));
  }

  lemma SavedStorages<V>(m: map<User, V>, edited: map<User, V>)
    requires m.Keys <= edited.Keys
    ensures m + DiffEntries(m, edited) == edited
  {
  }

  /** Saving an edit of an unchanged document stores the edited copy without its deletion marks. */
  lemma SaveStoresTheEdit(doc: Doc, edited: Draft)
    requires Extends(edited, doc) && NoEmptyUser(doc)
    ensures Merge(doc, Diff(Load(doc), edited)) == Ok(Strip(edited))
    ensures NoEmptyUser(Strip(edited))
  {
    SavedPassports(doc.passports, edited.passports);
    SavedEndpoints(doc.endpoints, edited.endpoints);
    SavedStorages(doc.storages, edited.storages);
  }

  // ---------------------------------------------------------------------
  // The loops that compute the difference and merge it.

  /** The loop of a save over one dictionary. */
  method BuildDiff<V(==)>(original: map<User, V>, edited: map<User, V>) returns (diff: map<User, V>)
    ensures diff == DiffEntries(original, edited)
  {
    diff := map[];
    var todo := edited.Keys;
    while todo != {}
      invariant todo <= edited.Keys
      invariant diff == map u | u in DiffEntries(original, edited) && u !in todo :: edited[u]
      decreases |todo|
    {
      var u :| u in todo;
      if u !in original || original[u] != edited[u] {
        diff := diff[u := edited[u]];
      }
      todo := todo - {u};
    }
  }

  /** One more change. */
  lemma OverlayOne<V>(m: map<string, V>, d: map<string, Option<V>>, k: string, v: Option<V>)
    requires k !in d
    ensures Get(Overlay(m, d), k) == Get(m, k)
    ensures Overlay(m, d[k := v]) == if v.None? then Overlay(m, d) - {k} else Overlay(m, d)[k := v.value]
  {
  }

  /** `done` are the changes of `update` outside `todo`. */
  predicate Progress<V(==)>(update: map<string, V>, done: map<string, V>, todo: set<string>) {
    && todo <= update.Keys
    && done.Keys == update.Keys - todo
    && forall k :: k in done ==> done[k] == update[k]
  }

  lemma RemovesOneMore(passports: map<User, Passport>, d: map<User, Option<Passport>>, u: User, v: Option<Passport>)
    requires u !in d && !RemovesMissing(passports, d)
    ensures RemovesMissing(passports, d[u := v]) <==> v.None? && u !in passports
  {
    if v.None? && u !in passports {
      assert u in d[u := v];
    }
  }

  /** The loop over the passports has applied `done` and found every passport it had to remove. */
  predicate PassportsDone(
    passports: map<User, Passport>, update: map<User, Option<Passport>>,
    done: map<User, Option<Passport>>, todo: set<User>, res: map<User, Passport>)
  {
    Progress(update, done, todo) && res == Overlay(passports, done) && !RemovesMissing(passports, done)
  }

  lemma PassportsOneMore(
    passports: map<User, Passport>, update: map<User, Option<Passport>>,
    done: map<User, Option<Passport>>, todo: set<User>, res: map<User, Passport>, u: User)
    requires PassportsDone(passports, update, done, todo, res) && u in todo
    ensures u in res <==> u in passports
    ensures
      var v := update[u];
      if v.None? && u !in res then RemovesMissing(passports, update)
      else PassportsDone(passports, update, done[u := v], todo - {u}, if v.None? then res - {u} else res[u := v.value])
  {
    OverlayOne(passports, done, u, update[u]);
    RemovesOneMore(passports, done, u, update[u]);
    assert (u in res) == Get(res, u).Some?;
  }

  lemma PassportsAllDone(
    passports: map<User, Passport>, update: map<User, Option<Passport>>,
    done: map<User, Option<Passport>>, res: map<User, Passport>)
    requires PassportsDone(passports, update, done, {}, res)
    ensures res == Overlay(passports, update) && !RemovesMissing(passports, update)
  {
    assert done == update;
  }

  /** The update handler on the passports: it fails on the removal of one that is not there. */
  method UpdatePassports(passports: map<User, Passport>, update: map<User, Option<Passport>>)
    returns (r: Result<map<User, Passport>, Error>)
    ensures r.Err? <==> RemovesMissing(passports, update)
    ensures r.Ok? ==> r.value == Overlay(passports, update)
  {
    var res, todo := passports, update.Keys;
    ghost var done: map<User, Option<Passport>> := map[];
    while todo != {}
      invariant PassportsDone(passports, update, done, todo, res)
      decreases |todo|
    {
      var u :| u in todo;
      PassportsOneMore(passports, update, done, todo, res, u);
      if update[u].None? {
        if u !in res {
          return Err(NoSuchPassport);
        }
        res := res - {u};
      } else {
        res := res[u := update[u].value];
      }
      done, todo := done[u := update[u]], todo - {u};
    }
    PassportsAllDone(passports, update, done, res);
    return Ok(res);
  }

  lemma MergeUserOne(
    nodes: Option<map<Node, Endpoints>>, done: map<Node, Option<Endpoints>>, n: Node, v: Option<Endpoints>)
    requires n !in done
    ensures
      var before := OrEmpty(MergeUser(nodes, Some(done)));
      var after := if v.None? then before - {n} else before[n := v.value];
      MergeUser(nodes, Some(done[n := v])) == if after == map[] then None else Some(after)
  {
    OverlayOne(OrEmpty(nodes), done, n, v);
    if done == map[] {
      assert Overlay(OrEmpty(nodes), done) == OrEmpty(nodes);
    }
    assert n in done[n := v];
  }

  /** The update handler on one user, who comes and goes with the endpoints. */
  method UpdateUser(users: map<User, map<Node, Endpoints>>, user: User, update: map<Node, Option<Endpoints>>)
    returns (res: map<User, map<Node, Endpoints>>)
    ensures Get(res, user) == MergeUser(Get(users, user), Some(update))
    ensures res - {user} == users - {user}
  {
    res := users;
    var todo := update.Keys;
    ghost var done: map<Node, Option<Endpoints>> := map[];
    while todo != {}
      invariant Progress(update, done, todo) && res - {user} == users - {user}
      invariant Get(res, user) == MergeUser(Get(users, user), Some(done))
      decreases |todo|
    {
      var n :| n in todo;
      MergeUserOne(Get(users, user), done, n, update[n]);
      var nodes := OrEmpty(Get(res, user));
      if update[n].None? {
        nodes := nodes - {n};
        res := if nodes == map[] then res - {user} else res[user := nodes];
      } else {
        nodes := nodes[n := update[n].value];
        assert n in nodes;
        res := res[user := nodes];
      }
      done, todo := done[n := update[n]], todo - {n};
    }
    assert done == update;
  }

  lemma OthersSame(a: map<User, map<Node, Endpoints>>, b: map<User, map<Node, Endpoints>>, user: User, u: User)
    requires a - {user} == b - {user} && u != user
    ensures Get(a, u) == Get(b, u)
  {
    assert Get(a - {user}, u) == Get(b - {user}, u);
  }

  method UpdateEndpoints(users: map<User, map<Node, Endpoints>>, update: map<User, map<Node, Option<Endpoints>>>)
    returns (res: map<User, map<Node, Endpoints>>)
    ensures res == MergeEndpoints(users, update)
  {
    res := users;
    var todo := update.Keys;
    while todo != {}
      invariant todo <= update.Keys
      invariant forall u :: Get(res, u) == MergeUser(Get(users, u), if u in todo then None else Get(update, u))
      decreases |todo|
    {
      var user :| user in todo;
      ghost var before := res;
      assert Get(before, user) == Get(users, user);
      res := UpdateUser(res, user, update[user]);
      todo := todo - {user};
      forall u ensures Get(res, u) == MergeUser(Get(users, u), if u in todo then None else Get(update, u)) {
        assert Get(before, u) == MergeUser(Get(users, u), if u in todo + {user} then None else Get(update, u));
        if u != user {
          OthersSame(res, before, user, u);
        }
      }
    }
    SameMap(res, MergeEndpoints(users, update));
  }

  /** The update handler. */
  method Update(network: Doc, update: Draft) returns (r: Result<Doc, Error>)
    ensures r == Merge(network, update)
  {
    var passports := UpdatePassports(network.passports, update.passports);
    if passports.Err? {
      return Err(NoSuchPassport);
    }
    var endpoints := UpdateEndpoints(network.endpoints, update.endpoints);
    return Ok(Doc(passports.value, endpoints, network.storages + update.storages));
  }
}
