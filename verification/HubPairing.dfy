/**
 Pairing: one device leaves information under its owner's name, another fetches
 it once with a passphrase. Storing and fetching take several calls to the
 datastore, each of them atomic; deletions name the revision they remove.
 */
module HubPairing {
  import opened Options

  datatype Pairing = Pairing(hash: int, data: int, expiration: int)

  /** A stored document. Revision `rev` is that of save number `rev`. */
  datatype Record = Record(rev: nat, pairing: Pairing)

  /** Where a request stands: the next call to the datastore that it makes. */
  datatype Process =
    | Saving(pairing: Pairing)
    | Replacing(pairing: Pairing)
    | RemovingOld(pairing: Pairing, rev: nat)
    | Fetching(hash: int)
    | FetchingAgain(fetched: Record, hash: int)
    | Removing(fetched: Record, hash: int, rev: nat)
    | Done

  datatype Request = Store(pairing: Pairing) | Get(hash: int)

  /** A save that took effect, and the request that made it. */
  datatype Save = Save(id: int, pairing: Pairing)

  /** What request `id` returned, under which passphrase and when, and the revision it removed. */
  datatype Delivery = Delivery(id: int, fetched: Record, hash: int, time: int, removed: nat)

  datatype State = State(
    stored: Option<Record>,
    saves: seq<Save>,
    processes: map<int, Process>,
    deliveries: seq<Delivery>)

  datatype Step = Begin(id: int, request: Request) | Call(id: int, now: int)

  predicate Enabled(st: State, step: Step) {
    match step
    case Begin(id, _) => id !in st.processes
    case Call(id, _) => id in st.processes
  }

  predicate Holds(st: State, rev: nat) {
    st.stored.Some? && st.stored.value.rev == rev
  }

  function Apply(st: State, step: Step): State
    requires Enabled(st, step)
  {
    match step
    case Begin(id, Store(p)) => st.(processes := st.processes[id := Saving(p)])
    case Begin(id, Get(hash)) => st.(processes := st.processes[id := Fetching(hash)])
    case Call(id, now) =>
      match st.processes[id]
      case Saving(p) =>
        if st.stored.Some? then st.(processes := st.processes[id := Replacing(p)])
        else
          st.(stored := Some(Record(|st.saves|, p)),
              saves := st.saves + [Save(id, p)],
              processes := st.processes[id := Done])
      case Replacing(p) =>
        st.(processes := st.processes[id := if st.stored.None? then Done else RemovingOld(p, st.stored.value.rev)])
      case RemovingOld(p, rev) =>
        if Holds(st, rev) then st.(stored := None, processes := st.processes[id := Saving(p)])
        else st.(processes := st.processes[id := Done])
      case Fetching(hash) =>
        var found := st.stored.Some? && st.stored.value.pairing.hash == hash;
        var next := if found then FetchingAgain(st.stored.value, hash) else Done;
        st.(processes := st.processes[id := next])
      case FetchingAgain(fetched, hash) =>
        var next := if st.stored.None? then Done else Removing(fetched, hash, st.stored.value.rev);
        st.(processes := st.processes[id := next])
      case Removing(fetched, hash, rev) =>
        var st' := st.(processes := st.processes[id := Done]);
        if !Holds(st, rev) then st'
        else if now > fetched.pairing.expiration then st'.(stored := None)
        else st'.(stored := None, deliveries := st.deliveries + [Delivery(id, fetched, hash, now, rev)])
      case Done => st
  }

  const START := State(None, [], map[], [])

  /** The state after the first `n` of `steps`, or nothing when one of them is not enabled in its turn. */
  function After(steps: seq<Step>, n: nat): Option<State>
    requires n <= |steps|
  {
    if n == 0 then Some(START)
    else
      var before := After(steps, n - 1);
      if before.Some? && Enabled(before.value, steps[n - 1]) then Some(Apply(before.value, steps[n - 1])) else None
  }

  function Exec(steps: seq<Step>): Option<State> {
    After(steps, |steps|)
  }

  /** The record is one that was saved. */
  predicate Saved(st: State, r: Record) {
    r.rev < |st.saves| && r.pairing == st.saves[r.rev].pairing
  }

  /** What was delivered had been saved, under the given passphrase, and had not expired. */
  predicate Rightful(st: State, d: Delivery) {
    && Saved(st, d.fetched)
    && d.fetched.pairing.hash == d.hash
    && d.time <= d.fetched.pairing.expiration
    && d.removed < |st.saves|
  }

  predicate ProcessInv(st: State, p: Process) {
    match p
    case FetchingAgain(f, hash) => Saved(st, f) && f.pairing.hash == hash
    case Removing(f, hash, _) => Saved(st, f) && f.pairing.hash == hash
    case _ => true
  }

  ghost predicate Inv(st: State) {
    && (st.stored.Some? ==> Saved(st, st.stored.value) && st.stored.value.rev == |st.saves| - 1)
    && (forall id :: id in st.processes ==> ProcessInv(st, st.processes[id]))
    && (forall i :: 0 <= i < |st.deliveries| ==>
          Rightful(st, st.deliveries[i]) && !Holds(st, st.deliveries[i].removed))
    && (forall i, j :: 0 <= i < j < |st.deliveries| ==> st.deliveries[i].removed != st.deliveries[j].removed)
    && |st.deliveries| + (if st.stored.Some? then 1 else 0) <= |st.saves|
  }

  lemma StepKeepsSaved(st: State, step: Step, r: Record)
    requires Enabled(st, step) && Saved(st, r)
    ensures Saved(Apply(st, step), r)
  {
  }

  lemma StepKeepsProcess(st: State, step: Step, id: int)
    requires Enabled(st, step) && id in Apply(st, step).processes
    requires st.stored.Some? ==> Saved(st, st.stored.value)
    requires id in st.processes ==> ProcessInv(st, st.processes[id])
    ensures ProcessInv(Apply(st, step), Apply(st, step).processes[id])
  {
  }

  lemma StepKeepsDelivery(st: State, step: Step, i: nat)
    requires Inv(st) && Enabled(st, step) && i < |Apply(st, step).deliveries|
    ensures
      var d := Apply(st, step).deliveries[i];
      Rightful(Apply(st, step), d) && !Holds(Apply(st, step), d.removed)
  {
    if i < |st.deliveries| {
      assert Rightful(st, st.deliveries[i]) && !Holds(st, st.deliveries[i].removed);
      assert Apply(st, step).deliveries[i] == st.deliveries[i];
    } else {
      assert ProcessInv(st, st.processes[step.id]);
    }
  }

  /** A step delivers at most once, and then it removes the stored document. */
  lemma StepDelivers(st: State, step: Step)
    requires Enabled(st, step)
    ensures
      var st' := Apply(st, step);
      || (st'.deliveries == st.deliveries
          && |st'.saves| - (if st'.stored.Some? then 1 else 0) >= |st.saves| - (if st.stored.Some? then 1 else 0))
      || (&& |st'.deliveries| == |st.deliveries| + 1 && st'.deliveries[..|st.deliveries|] == st.deliveries
          && Holds(st, st'.deliveries[|st.deliveries|].removed) && st'.stored.None? && st'.saves == st.saves)
  {
  }

  lemma StepKeepsInv(st: State, step: Step)
    requires Inv(st) && Enabled(st, step)
    ensures Inv(Apply(st, step))
  {
    var st' := Apply(st, step);
    if st.stored.Some? {
      StepKeepsSaved(st, step, st.stored.value);
    }
    forall id | id in st'.processes ensures ProcessInv(st', st'.processes[id]) {
      StepKeepsProcess(st, step, id);
    }
    forall i | 0 <= i < |st'.deliveries|
      ensures Rightful(st', st'.deliveries[i]) && !Holds(st', st'.deliveries[i].removed)
    {
      StepKeepsDelivery(st, step, i);
    }
    StepDelivers(st, step);
    forall i, j | 0 <= i < j < |st'.deliveries| ensures st'.deliveries[i].removed != st'.deliveries[j].removed {
      assert st'.deliveries[i] == st.deliveries[i];
      assert j < |st.deliveries| ==> st'.deliveries[j] == st.deliveries[j];
    }
  }

  lemma {:induction false} RunKeepsInv(steps: seq<Step>, n: nat)
    requires n <= |steps| && After(steps, n).Some?
    ensures Inv(After(steps, n).value)
    decreases n
  {
    if n > 0 {
      RunKeepsInv(steps, n - 1);
      StepKeepsInv(After(steps, n - 1).value, steps[n - 1]);
    }
  }

  /** The step is a save that takes effect: it meets no stored document. */
  predicate Saves(st: State, step: Step) {
    step.Call? && step.id in st.processes && st.processes[step.id].Saving? && st.stored.None?
  }

  /** Request `id` is a get that looked once and has yet to look again. */
  predicate BetweenLooks(st: State, id: int) {
    id in st.processes && st.processes[id].FetchingAgain?
  }

  /** The step is the last call of a get that returns what it fetched. */
  predicate Delivers(st: State, step: Step) {
    && step.Call? && step.id in st.processes && st.processes[step.id].Removing?
    && Holds(st, st.processes[step.id].rev) && step.now <= st.processes[step.id].fetched.pairing.expiration
  }

  predicate Interrupts(steps: seq<Step>, j: nat, id: int)
    requires j < |steps|
  {
    After(steps, j).Some? && Saves(After(steps, j).value, steps[j]) && BetweenLooks(After(steps, j).value, id)
  }

  /** Among the first `n` steps, a save took effect between the two looks of get `id`. */
  predicate Interrupted(steps: seq<Step>, n: nat, id: int)
    requires n <= |steps|
  {
    exists j :: 0 <= j < n && Interrupts(steps, j, id)
  }

  predicate DeliversAt(steps: seq<Step>, k: nat)
    requires k < |steps|
  {
    After(steps, k).Some? && Delivers(After(steps, k).value, steps[k])
  }

  /** None of the gets that delivered something in the first `n` steps was interrupted. */
  predicate Quiet(steps: seq<Step>, n: nat)
    requires n <= |steps|
  {
    forall k :: 0 <= k < n && DeliversAt(steps, k) ==> !Interrupted(steps, k, steps[k].id)
  }

  /** Each delivery removed the very document that it returned. */
  predicate Undisturbed(st: State) {
    forall i :: 0 <= i < |st.deliveries| ==> st.deliveries[i].removed == st.deliveries[i].fetched.rev
  }

  /** A get was interrupted exactly when the document it looked at is no longer the last saved one. */
  predicate Traced(saves: nat, p: Process, interrupted: bool) {
    match p
    case FetchingAgain(f, _) => interrupted <==> f.rev + 1 < saves
    case Removing(f, _, rev) => interrupted <==> rev != f.rev
    case Done => true
    case _ => !interrupted
  }

  lemma InterruptedStep(steps: seq<Step>, n: nat, id: int)
    requires n < |steps|
    ensures Interrupted(steps, n + 1, id) <==> Interrupted(steps, n, id) || Interrupts(steps, n, id)
  {
    if Interrupted(steps, n + 1, id) && !Interrupts(steps, n, id) {
      var j :| 0 <= j < n + 1 && Interrupts(steps, j, id);
      assert j < n;
    }
  }

  lemma {:induction false} ProcessIsTraced(steps: seq<Step>, n: nat, id: int)
    requires n <= |steps| && After(steps, n).Some?
    ensures
      var st := After(steps, n).value;
      if id in st.processes then Traced(|st.saves|, st.processes[id], Interrupted(steps, n, id))
      else !Interrupted(steps, n, id)
    decreases n
  {
    if n > 0 {
      ProcessIsTraced(steps, n - 1, id);
      RunKeepsInv(steps, n - 1);
      InterruptedStep(steps, n - 1, id);
      StepIsTraced(After(steps, n - 1).value, steps[n - 1], id, Interrupted(steps, n - 1, id));
    }
  }

  lemma StepIsTraced(st: State, step: Step, id: int, interrupted: bool)
    requires Enabled(st, step)
    requires st.stored.Some? ==> st.stored.value.rev == |st.saves| - 1
    requires id in st.processes ==> ProcessInv(st, st.processes[id])
    requires if id in st.processes then Traced(|st.saves|, st.processes[id], interrupted) else !interrupted
    ensures
      var st' := Apply(st, step);
      var interrupted' := interrupted || (Saves(st, step) && BetweenLooks(st, id));
      if id in st'.processes then Traced(|st'.saves|, st'.processes[id], interrupted') else !interrupted'
  {
  }

  lemma QuietStep(steps: seq<Step>, n: nat)
    requires n < |steps|
    ensures Quiet(steps, n + 1) <==>
              Quiet(steps, n) && (DeliversAt(steps, n) ==> !Interrupted(steps, n, steps[n].id))
  {
  }

  lemma UndisturbedStep(st: State, step: Step)
    requires Enabled(st, step)
    ensures Undisturbed(Apply(st, step)) <==>
              Undisturbed(st) && (Delivers(st, step) ==> st.processes[step.id].rev == st.processes[step.id].fetched.rev)
  {
    var before, after := st.deliveries, Apply(st, step).deliveries;
    assert forall i :: 0 <= i < |before| ==> after[i] == before[i];
    if Delivers(st, step) {
      assert after[|before|].removed == st.processes[step.id].rev;
    }
  }

  lemma {:induction false} UndisturbedAfter(steps: seq<Step>, n: nat)
    requires n <= |steps| && After(steps, n).Some?
    ensures Undisturbed(After(steps, n).value) <==> Quiet(steps, n)
    decreases n
  {
    if n > 0 {
      UndisturbedAfter(steps, n - 1);
      ProcessIsTraced(steps, n - 1, steps[n - 1].id);
      UndisturbedStep(After(steps, n - 1).value, steps[n - 1]);
      QuietStep(steps, n - 1);
    }
  }

  /**
   In every interleaving, each delivery removed what it returned if and only
   if no save took effect between the two looks of a get that delivered.
   */
  lemma UndisturbedExactly(steps: seq<Step>)
    requires Exec(steps).Some?
    ensures Undisturbed(Exec(steps).value) <==> Quiet(steps, |steps|)
  {
    UndisturbedAfter(steps, |steps|);
  }

  /** No save is delivered twice. */
  predicate AtMostOnce(st: State) {
    forall i, j :: 0 <= i < j < |st.deliveries| ==> st.deliveries[i].fetched.rev != st.deliveries[j].fetched.rev
  }

  /**
   In every interleaving, each delivery is rightful and there are no more
   deliveries than saves; and when no get that delivered was interrupted by a
   save, no save is delivered twice.
   */
  lemma Deliveries(steps: seq<Step>)
    requires Exec(steps).Some?
    ensures
      var st := Exec(steps).value;
      && |st.deliveries| <= |st.saves|
      && (forall i :: 0 <= i < |st.deliveries| ==> Rightful(st, st.deliveries[i]))
      && (Quiet(steps, |steps|) ==> AtMostOnce(st))
  {
    RunKeepsInv(steps, |steps|);
    UndisturbedExactly(steps);
  }

  // ---------------------------------------------------------------------
  // Which requests can have a save delivered twice.

  /** The run serves some of `requests`, each under its own number and at most once. */
  predicate Serves(requests: map<int, Request>, steps: seq<Step>) {
    forall i :: 0 <= i < |steps| && steps[i].Begin? ==>
      steps[i].id in requests && requests[steps[i].id] == steps[i].request
  }

  /** Process `id` does what its request asks for. */
  predicate Faithful(requests: map<int, Request>, id: int, p: Process) {
    && id in requests
    && match p
       case Saving(x) => requests[id] == Store(x)
       case Replacing(x) => requests[id] == Store(x)
       case RemovingOld(x, _) => requests[id] == Store(x)
       case Fetching(hash) => requests[id] == Get(hash)
       case FetchingAgain(_, hash) => requests[id] == Get(hash)
       case Removing(_, hash, _) => requests[id] == Get(hash)
       case Done => true
  }

  predicate Finished(st: State, id: int) {
    id in st.processes && st.processes[id].Done?
  }

  predicate SaveFaithful(requests: map<int, Request>, st: State, s: Save) {
    s.id in requests && requests[s.id] == Store(s.pairing) && Finished(st, s.id)
  }

  predicate DeliveryFaithful(requests: map<int, Request>, st: State, d: Delivery) {
    d.id in requests && requests[d.id] == Get(d.hash) && Finished(st, d.id)
  }

  /** Saves and deliveries belong to requests, no two of them to the same one. */
  ghost predicate Attributed(requests: map<int, Request>, st: State) {
    && (forall id :: id in st.processes ==> Faithful(requests, id, st.processes[id]))
    && (forall i :: 0 <= i < |st.saves| ==> SaveFaithful(requests, st, st.saves[i]))
    && (forall i :: 0 <= i < |st.deliveries| ==> DeliveryFaithful(requests, st, st.deliveries[i]))
    && (forall i, j :: 0 <= i < j < |st.saves| ==> st.saves[i].id != st.saves[j].id)
    && (forall i, j :: 0 <= i < j < |st.deliveries| ==> st.deliveries[i].id != st.deliveries[j].id)
  }

  lemma StepKeepsFinished(st: State, step: Step, id: int)
    requires Enabled(st, step) && Finished(st, id)
    ensures Finished(Apply(st, step), id)
  {
  }

  lemma StepKeepsFaithful(requests: map<int, Request>, st: State, step: Step, id: int)
    requires Enabled(st, step) && id in Apply(st, step).processes
    requires step.Begin? ==> step.id in requests && requests[step.id] == step.request
    requires id in st.processes ==> Faithful(requests, id, st.processes[id])
    ensures Faithful(requests, id, Apply(st, step).processes[id])
  {
  }

  /** A step makes at most one save or delivery, for a request that was not finished. */
  lemma StepAttributes(requests: map<int, Request>, st: State, step: Step)
    requires Enabled(st, step)
    requires step.id in st.processes ==> Faithful(requests, step.id, st.processes[step.id])
    ensures
      var st' := Apply(st, step);
      && (|| st'.saves == st.saves
          || (exists s :: st'.saves == st.saves + [s] && NewSave(requests, st, st', s)))
      && (|| st'.deliveries == st.deliveries
          || (exists d :: st'.deliveries == st.deliveries + [d] && NewDelivery(requests, st, st', d)))
  {
    var st' := Apply(st, step);
    if st'.saves != st.saves {
      var s := st'.saves[|st.saves|];
      assert st'.saves == st.saves + [s] && NewSave(requests, st, st', s);
    }
    if st'.deliveries != st.deliveries {
      var d := st'.deliveries[|st.deliveries|];
      assert st'.deliveries == st.deliveries + [d] && NewDelivery(requests, st, st', d);
    }
  }

  predicate NewSave(requests: map<int, Request>, st: State, st': State, s: Save) {
    SaveFaithful(requests, st', s) && !Finished(st, s.id)
  }

  predicate NewDelivery(requests: map<int, Request>, st: State, st': State, d: Delivery) {
    DeliveryFaithful(requests, st', d) && !Finished(st, d.id)
  }

  lemma StepKeepsSaves(requests: map<int, Request>, st: State, step: Step)
    requires Attributed(requests, st) && Enabled(st, step)
    ensures
      var st' := Apply(st, step);
      && (forall i :: 0 <= i < |st'.saves| ==> SaveFaithful(requests, st', st'.saves[i]))
      && (forall i, j :: 0 <= i < j < |st'.saves| ==> st'.saves[i].id != st'.saves[j].id)
  {
    var st' := Apply(st, step);
    StepAttributes(requests, st, step);
    forall i | 0 <= i < |st.saves| ensures SaveFaithful(requests, st', st.saves[i]) && Finished(st, st.saves[i].id) {
      StepKeepsFinished(st, step, st.saves[i].id);
    }
  }

  lemma StepKeepsDeliveries(requests: map<int, Request>, st: State, step: Step)
    requires Attributed(requests, st) && Enabled(st, step)
    ensures
      var st' := Apply(st, step);
      && (forall i :: 0 <= i < |st'.deliveries| ==> DeliveryFaithful(requests, st', st'.deliveries[i]))
      && (forall i, j :: 0 <= i < j < |st'.deliveries| ==> st'.deliveries[i].id != st'.deliveries[j].id)
  {
    var st' := Apply(st, step);
    StepAttributes(requests, st, step);
    forall i | 0 <= i < |st.deliveries|
      ensures DeliveryFaithful(requests, st', st.deliveries[i]) && Finished(st, st.deliveries[i].id)
    {
      StepKeepsFinished(st, step, st.deliveries[i].id);
    }
  }

  lemma {:induction false} RunIsAttributed(requests: map<int, Request>, steps: seq<Step>, n: nat)
    requires n <= |steps| && After(steps, n).Some? && Serves(requests, steps)
    ensures Attributed(requests, After(steps, n).value)
    decreases n
  {
    if n > 0 {
      RunIsAttributed(requests, steps, n - 1);
      var st, step := After(steps, n - 1).value, steps[n - 1];
      StepKeepsSaves(requests, st, step);
      StepKeepsDeliveries(requests, st, step);
      forall id | id in Apply(st, step).processes ensures Faithful(requests, id, Apply(st, step).processes[id]) {
        StepKeepsFaithful(requests, st, step, id);
      }
    }
  }

  /** Gets `b` and `c` both have the passphrase of what `a` stores, and `d` stores as well. */
  predicate Contend(requests: map<int, Request>, a: int, b: int, c: int, d: int) {
    && a in requests && b in requests && c in requests && d in requests
    && requests[a].Store? && requests[d].Store? && a != d
    && requests[b] == requests[c] == Get(requests[a].pairing.hash) && b != c
  }

  ghost predicate Contended(requests: map<int, Request>) {
    exists a, b, c, d :: Contend(requests, a, b, c, d)
  }

  /** A save that is delivered twice takes two gets with its passphrase and another store. */
  lemma TwiceIsContended(requests: map<int, Request>, st: State)
    requires Inv(st) && Attributed(requests, st) && !AtMostOnce(st)
    ensures Contended(requests)
  {
    var i, j :| 0 <= i < j < |st.deliveries| && st.deliveries[i].fetched.rev == st.deliveries[j].fetched.rev;
    var d, d' := st.deliveries[i], st.deliveries[j];
    assert Rightful(st, d) && Rightful(st, d') && d.removed != d'.removed;
    assert DeliveryFaithful(requests, st, d) && DeliveryFaithful(requests, st, d');
    var rev := d.fetched.rev;
    var other := if d.removed == rev then d'.removed else d.removed;
    assert SaveFaithful(requests, st, st.saves[rev]) && SaveFaithful(requests, st, st.saves[other]);
    assert st.saves[rev].id != st.saves[other].id by {
      assert rev < other || other < rev;
    }
    assert Contend(requests, st.saves[rev].id, d.id, d'.id, st.saves[other].id);
  }

  ghost predicate Reachable(requests: map<int, Request>, st: State) {
    exists steps :: Serves(requests, steps) && Exec(steps) == Some(st)
  }

  lemma {:induction false} AfterPrefix(steps: seq<Step>, step: Step, n: nat)
    requires n <= |steps|
    ensures After(steps + [step], n) == After(steps, n)
    decreases n
  {
    if n > 0 {
      AfterPrefix(steps, step, n - 1);
    }
  }

  lemma Then(requests: map<int, Request>, st: State, step: Step)
    requires Reachable(requests, st) && Enabled(st, step)
    requires step.Begin? ==> step.id in requests && requests[step.id] == step.request
    ensures Reachable(requests, Apply(st, step))
  {
    var steps :| Serves(requests, steps) && Exec(steps) == Some(st);
    AfterPrefix(steps, step, |steps|);
    assert Exec(steps + [step]) == Some(Apply(st, step));
  }

  lemma OneStored(requests: map<int, Request>, a: int, now: int)
    requires a in requests && requests[a].Store?
    ensures
      var p := requests[a].pairing;
      Reachable(requests, State(Some(Record(0, p)), [Save(a, p)], map[a := Done], []))
  {
    var p := requests[a].pairing;
    assert Exec([]) == Some(START);
    var begin := Begin(a, Store(p));
    Then(requests, START, begin);
    var st := Apply(START, begin);
    Then(requests, st, Call(a, now));
    assert Apply(st, Call(a, now)) == State(Some(Record(0, p)), [Save(a, p)], map[a := Done], []);
  }

  /** A pairing is stored, and two gets look at it. */
  lemma TwoLooks(requests: map<int, Request>, a: int, b: int, c: int, now: int)
    requires a in requests && b in requests && c in requests && b != c && requests[a].Store?
    requires requests[b] == requests[c] == Get(requests[a].pairing.hash)
    ensures
      var p := requests[a].pairing;
      var looked := FetchingAgain(Record(0, p), p.hash);
      Reachable(requests,
                State(Some(Record(0, p)), [Save(a, p)], map[a := Done, b := looked, c := looked], []))
  {
    OneStored(requests, a, now);
    var p := requests[a].pairing;
    var st := State(Some(Record(0, p)), [Save(a, p)], map[a := Done], []);
    Then(requests, st, Begin(b, Get(p.hash)));
    st := Apply(st, Begin(b, Get(p.hash)));
    Then(requests, st, Begin(c, Get(p.hash)));
    st := Apply(st, Begin(c, Get(p.hash)));
    Then(requests, st, Call(b, now));
    st := Apply(st, Call(b, now));
    Then(requests, st, Call(c, now));
    st := Apply(st, Call(c, now));
    var looked := FetchingAgain(Record(0, p), p.hash);
    assert st == State(Some(Record(0, p)), [Save(a, p)], map[a := Done, b := looked, c := looked], []);
  }

  /** The first of them removes and returns it. */
  lemma FirstDelivery(requests: map<int, Request>, a: int, b: int, c: int, d: int)
    requires Contend(requests, a, b, c, d)
    ensures
      var p := requests[a].pairing;
      var looked := FetchingAgain(Record(0, p), p.hash);
      Reachable(requests,
                State(None, [Save(a, p)], map[a := Done, b := Done, c := looked],
                      [Delivery(b, Record(0, p), p.hash, p.expiration, 0)]))
  {
    var p := requests[a].pairing;
    var now := p.expiration;
    TwoLooks(requests, a, b, c, now);
    var looked := FetchingAgain(Record(0, p), p.hash);
    var st := State(Some(Record(0, p)), [Save(a, p)], map[a := Done, b := looked, c := looked], []);
    Then(requests, st, Call(b, now));
    st := Apply(st, Call(b, now));
    assert st.processes[b] == Removing(Record(0, p), p.hash, 0) && Holds(st, 0);
    Then(requests, st, Call(b, now));
    st := Apply(st, Call(b, now));
    assert st == State(None, [Save(a, p)], map[a := Done, b := Done, c := looked],
                       [Delivery(b, Record(0, p), p.hash, now, 0)]);
  }

  /** Another pairing is stored. */
  lemma SecondSave(requests: map<int, Request>, a: int, b: int, c: int, d: int)
    requires Contend(requests, a, b, c, d)
    ensures
      var p, q := requests[a].pairing, requests[d].pairing;
      var looked := FetchingAgain(Record(0, p), p.hash);
      Reachable(requests,
                State(Some(Record(1, q)), [Save(a, p), Save(d, q)], map[a := Done, b := Done, c := looked, d := Done],
                      [Delivery(b, Record(0, p), p.hash, p.expiration, 0)]))
  {
    FirstDelivery(requests, a, b, c, d);
    var p, q := requests[a].pairing, requests[d].pairing;
    var looked := FetchingAgain(Record(0, p), p.hash);
    var delivery := Delivery(b, Record(0, p), p.hash, p.expiration, 0);
    var st := State(None, [Save(a, p)], map[a := Done, b := Done, c := looked], [delivery]);
    Then(requests, st, Begin(d, Store(q)));
    st := Apply(st, Begin(d, Store(q)));
    Then(requests, st, Call(d, 0));
    st := Apply(st, Call(d, 0));
    assert st == State(Some(Record(1, q)), [Save(a, p), Save(d, q)],
                       map[a := Done, b := Done, c := looked, d := Done], [delivery]);
  }

  /**
   A second get that looked before the first one removed the pairing goes on to
   remove the one stored next, and returns what it had looked at.
   */
  lemma DeliveredTwice(requests: map<int, Request>, a: int, b: int, c: int, d: int)
    requires Contend(requests, a, b, c, d)
    ensures exists st :: Reachable(requests, st) && !AtMostOnce(st)
  {
    SecondSave(requests, a, b, c, d);
    var p, q := requests[a].pairing, requests[d].pairing;
    var looked := FetchingAgain(Record(0, p), p.hash);
    var delivery := Delivery(b, Record(0, p), p.hash, p.expiration, 0);
    var st := State(Some(Record(1, q)), [Save(a, p), Save(d, q)],
                    map[a := Done, b := Done, c := looked, d := Done], [delivery]);
    Then(requests, st, Call(c, p.expiration));
    st := Apply(st, Call(c, p.expiration));
    assert st.processes[c] == Removing(Record(0, p), p.hash, 1) && Holds(st, 1);
    Then(requests, st, Call(c, p.expiration));
    st := Apply(st, Call(c, p.expiration));
    assert st.deliveries[0].fetched.rev == st.deliveries[1].fetched.rev;
  }

  /** Whatever the interleaving, no save is delivered twice. */
  ghost predicate AtMostOnceGuaranteed(requests: map<int, Request>) {
    forall steps: seq<Step> :: Serves(requests, steps) && Exec(steps).Some? ==> AtMostOnce(Exec(steps).value)
  }

  /**
   A set of requests guarantees delivery at most once in every interleaving if
   and only if it has no two gets with the passphrase of a stored pairing beside
   another store.
   */
  lemma AtMostOnceExactly(requests: map<int, Request>)
    ensures AtMostOnceGuaranteed(requests) <==> !Contended(requests)
  {
    if Contended(requests) {
      var a, b, c, d :| Contend(requests, a, b, c, d);
      DeliveredTwice(requests, a, b, c, d);
    } else {
      forall steps: seq<Step> | Serves(requests, steps) && Exec(steps).Some? ensures AtMostOnce(Exec(steps).value) {
        RunKeepsInv(steps, |steps|);
        RunIsAttributed(requests, steps, |steps|);
        if !AtMostOnce(Exec(steps).value) {
          TwiceIsContended(requests, Exec(steps).value);
        }
      }
    }
  }
}
