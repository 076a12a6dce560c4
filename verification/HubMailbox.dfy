/**
 What stores and gets of pairings achieve. Run one at a time they work a
 mailbox with one place. Run together, a store can be lost: the exact places in
 a run where that happens, and the exact requests that allow it.
 */
module HubMailbox {
  import opened Options
  import opened HubPairing

  // ---------------------------------------------------------------------
  // One request at a time.

  /** How many calls request `id` may still make when nothing else runs. */
  function CallsLeft(st: State, id: int): nat
    requires id in st.processes
  {
    match st.processes[id]
    case Saving(_) => if st.stored.Some? then 4 else 1
    case Replacing(_) => 3
    case RemovingOld(_, _) => 2
    case Fetching(_) => 3
    case FetchingAgain(_, _) => 2
    case Removing(_, _, _) => 1
    case Done => 0
  }

  /** Request `id` runs to its end with every call at time `now`. */
  function Finish(st: State, id: int, now: int): (st': State)
    requires id in st.processes
    ensures st'.processes.Keys == st.processes.Keys && Finished(st', id)
    decreases CallsLeft(st, id)
  {
    if st.processes[id].Done? then st else Finish(Apply(st, Call(id, now)), id, now)
  }

  function Alone(st: State, id: int, request: Request, now: int): State
    requires id !in st.processes
  {
    Finish(Apply(st, Begin(id, request)), id, now)
  }

  lemma StoreIntoEmpty(st: State, id: int, p: Pairing, now: int)
    requires id in st.processes && st.processes[id] == Saving(p) && st.stored.None?
    ensures Finish(st, id, now) ==
              State(Some(Record(|st.saves|, p)), st.saves + [Save(id, p)], st.processes[id := Done], st.deliveries)
  {
    assert Apply(st, Call(id, now)).processes[id].Done?;
  }

  /** Whatever is stored before, a store leaves its own pairing. */
  lemma StoreAlone(st: State, id: int, p: Pairing, now: int)
    requires id !in st.processes
    ensures Alone(st, id, Store(p), now) ==
              State(Some(Record(|st.saves|, p)), st.saves + [Save(id, p)], st.processes[id := Done], st.deliveries)
  {
    var st0 := Apply(st, Begin(id, Store(p)));
    if st.stored.None? {
      StoreIntoEmpty(st0, id, p, now);
      assert st0.processes[id := Done] == st.processes[id := Done];
    } else {
      var st1 := Apply(st0, Call(id, now));
      assert st1.processes[id] == Replacing(p);
      var st2 := Apply(st1, Call(id, now));
      assert st2.processes[id] == RemovingOld(p, st.stored.value.rev);
      var st3 := Apply(st2, Call(id, now));
      assert st3.processes[id] == Saving(p) && st3.stored.None?;
      assert Finish(st0, id, now) == Finish(st1, id, now) == Finish(st2, id, now) == Finish(st3, id, now);
      StoreIntoEmpty(st3, id, p, now);
      assert st3.processes[id := Done] == st.processes[id := Done];
    }
  }

  /** What a get with the right passphrase returns: the stored document, unless it expired. */
  function Returned(id: int, r: Record, hash: int, now: int): seq<Delivery> {
    if now <= r.pairing.expiration then [Delivery(id, r, hash, now, r.rev)] else []
  }

  /** A get with the right passphrase empties the place and returns what was there in time; another one does nothing. */
  lemma GetAlone(st: State, id: int, hash: int, now: int)
    requires id !in st.processes
    ensures Alone(st, id, Get(hash), now) ==
              if st.stored.Some? && st.stored.value.pairing.hash == hash then
                State(None, st.saves, st.processes[id := Done],
                      st.deliveries + Returned(id, st.stored.value, hash, now))
              else st.(processes := st.processes[id := Done])
  {
    var st0 := Apply(st, Begin(id, Get(hash)));
    var st1 := Apply(st0, Call(id, now));
    if st.stored.Some? && st.stored.value.pairing.hash == hash {
      var r := st.stored.value;
      assert st1.processes[id] == FetchingAgain(r, hash);
      var st2 := Apply(st1, Call(id, now));
      assert st2.processes[id] == Removing(r, hash, r.rev);
      var st3 := Apply(st2, Call(id, now));
      assert st3.processes[id].Done? && st3.processes == st.processes[id := Done];
      assert Finish(st0, id, now) == Finish(st1, id, now) == Finish(st2, id, now) == Finish(st3, id, now) == st3;
      assert st.deliveries + [] == st.deliveries;
    } else {
      assert st1.processes[id].Done? && st1.processes == st.processes[id := Done];
      assert Finish(st0, id, now) == Finish(st1, id, now) == st1;
    }
  }

  datatype Errand = Errand(request: Request, now: int)

  /** The errands one after the other, numbered from zero. */
  function Serially(errands: seq<Errand>): (st: State)
    ensures forall id :: id in st.processes ==> 0 <= id < |errands|
  {
    if errands == [] then START
    else
      var n := |errands| - 1;
      Alone(Serially(errands[..n]), n, errands[n].request, errands[n].now)
  }

  /** A mailbox with one place, and what was taken out of it so far. */
  datatype Mailbox = Mailbox(place: Option<Pairing>, taken: seq<Pairing>)

  function Visit(box: Mailbox, e: Errand): Mailbox {
    match e.request
    case Store(p) => box.(place := Some(p))
    case Get(hash) =>
      if box.place.None? || box.place.value.hash != hash then box
      else Mailbox(None, if e.now <= box.place.value.expiration then box.taken + [box.place.value] else box.taken)
  }

  function Visits(errands: seq<Errand>): Mailbox {
    if errands == [] then Mailbox(None, []) else Visit(Visits(errands[..|errands| - 1]), errands[|errands| - 1])
  }

  function Shown(st: State): Mailbox {
    Mailbox(if st.stored.Some? then Some(st.stored.value.pairing) else None,
            seq(|st.deliveries|, i requires 0 <= i < |st.deliveries| => st.deliveries[i].fetched.pairing))
  }

  /** One at a time, stores and gets work a mailbox with one place. */
  lemma {:induction false} SerialIsMailbox(errands: seq<Errand>)
    ensures Shown(Serially(errands)) == Visits(errands)
    decreases |errands|
  {
    if errands != [] {
      var n := |errands| - 1;
      SerialIsMailbox(errands[..n]);
      var st, e := Serially(errands[..n]), errands[n];
      match e.request
      case Store(p) => StoreAlone(st, n, p, e.now);
      case Get(hash) => GetAlone(st, n, hash, e.now);
    }
  }

  // ---------------------------------------------------------------------
  // Where a store is lost.

  /** The call ends a store without a save: the document in its way went away before it removed it. */
  predicate Loses(st: State, step: Step) {
    && step.Call? && step.id in st.processes
    && match st.processes[step.id]
       case Replacing(_) => st.stored.None?
       case RemovingOld(_, rev) => !Holds(st, rev)
       case _ => false
  }

  predicate LosesAt(steps: seq<Step>, k: nat, id: int)
    requires k < |steps|
  {
    steps[k].id == id && After(steps, k).Some? && Loses(After(steps, k).value, steps[k])
  }

  /** Among the first `n` steps, store `id` was lost. */
  predicate LostBy(steps: seq<Step>, n: nat, id: int)
    requires n <= |steps|
  {
    exists k :: 0 <= k < n && LosesAt(steps, k, id)
  }

  predicate SavedBy(st: State, id: int) {
    exists i :: 0 <= i < |st.saves| && st.saves[i].id == id
  }

  lemma LostStep(steps: seq<Step>, n: nat, id: int)
    requires n < |steps|
    ensures LostBy(steps, n + 1, id) <==> LostBy(steps, n, id) || LosesAt(steps, n, id)
  {
    if LostBy(steps, n + 1, id) && !LosesAt(steps, n, id) {
      var k :| 0 <= k < n + 1 && LosesAt(steps, k, id);
      assert k < n;
    }
  }

  lemma SavedStep(st: State, step: Step, id: int)
    requires Enabled(st, step)
    ensures SavedBy(Apply(st, step), id) <==> SavedBy(st, id) || (Saves(st, step) && step.id == id)
  {
    var st' := Apply(st, step);
    assert forall i :: 0 <= i < |st.saves| ==> st'.saves[i] == st.saves[i];
    if Saves(st, step) {
      assert st'.saves[|st.saves|].id == step.id;
    }
  }

  /** A store is saved or lost, not both, once it is done; before, it is neither. */
  predicate Settles(p: Process, saved: bool, lost: bool) {
    if p.Done? then saved != lost else !saved && !lost
  }

  lemma StepSettles(requests: map<int, Request>, st: State, step: Step, id: int, saved: bool, lost: bool)
    requires Enabled(st, step) && id in requests && requests[id].Store?
    requires step.Begin? ==> step.id in requests && requests[step.id] == step.request
    requires id in st.processes ==>
               Faithful(requests, id, st.processes[id]) && Settles(st.processes[id], saved, lost)
    requires id !in st.processes ==> !saved && !lost
    ensures
      var st' := Apply(st, step);
      var saved' := saved || (Saves(st, step) && step.id == id);
      var lost' := lost || (step.id == id && Loses(st, step));
      if id in st'.processes then Settles(st'.processes[id], saved', lost') else !saved' && !lost'
  {
  }

  lemma {:induction false} StoreSettles(requests: map<int, Request>, steps: seq<Step>, n: nat, id: int)
    requires n <= |steps| && After(steps, n).Some? && Serves(requests, steps)
    requires id in requests && requests[id].Store?
    ensures
      var st := After(steps, n).value;
      if id in st.processes then Settles(st.processes[id], SavedBy(st, id), LostBy(steps, n, id))
      else !SavedBy(st, id) && !LostBy(steps, n, id)
    decreases n
  {
    if n > 0 {
      StoreSettles(requests, steps, n - 1, id);
      RunIsAttributed(requests, steps, n - 1);
      var st := After(steps, n - 1).value;
      LostStep(steps, n - 1, id);
      SavedStep(st, steps[n - 1], id);
      StepSettles(requests, st, steps[n - 1], id, SavedBy(st, id), LostBy(steps, n - 1, id));
    }
  }

  /**
   In every interleaving, a store that is done was saved, unless it was lost:
   it found nothing to replace any more, or not the document it had found.
   */
  lemma StoreEndsExactly(requests: map<int, Request>, steps: seq<Step>, id: int)
    requires Exec(steps).Some? && Serves(requests, steps)
    requires id in requests && requests[id].Store? && Finished(Exec(steps).value, id)
    ensures SavedBy(Exec(steps).value, id) <==> !LostBy(steps, |steps|, id)
  {
    StoreSettles(requests, steps, |steps|, id);
  }

  // ---------------------------------------------------------------------
  // Which requests can have a store lost.

  /** Store `a` can be in the way of store `s`, and request `x` can remove it meanwhile. */
  predicate Rivals(requests: map<int, Request>, s: int, a: int, x: int) {
    && a in requests && requests[a].Store? && a != s
    && x in requests && x != a && x != s
    && (requests[x].Store? || requests[x] == Get(requests[a].pairing.hash))
  }

  ghost predicate Rivalled(requests: map<int, Request>, s: int) {
    exists a, x :: Rivals(requests, s, a, x)
  }

  /** A store that is not saved yet has only a document of one other store to deal with, which nobody else removes. */
  ghost predicate Unhindered(s: int, st: State) {
    && (forall id :: id in st.processes ==> !st.processes[id].FetchingAgain? && !st.processes[id].Removing?)
    && (forall id :: id in st.processes && id != s ==> !st.processes[id].Replacing? && !st.processes[id].RemovingOld?)
    && (s in st.processes ==>
          match st.processes[s]
          case Replacing(_) => st.stored.Some?
          case RemovingOld(_, rev) => Holds(st, rev)
          case Done => false
          case _ => true)
  }

  /** The stored document is that of a store other than `s`, which is done. */
  lemma StoredByAnother(requests: map<int, Request>, st: State, s: int) returns (a: int)
    requires Inv(st) && Attributed(requests, st) && !SavedBy(st, s) && st.stored.Some?
    ensures a in requests && requests[a] == Store(st.stored.value.pairing) && a != s && Finished(st, a)
  {
    var save := st.saves[st.stored.value.rev];
    assert SaveFaithful(requests, st, save);
    a := save.id;
  }

  lemma StepUnhindered(requests: map<int, Request>, st: State, step: Step, s: int)
    requires Inv(st) && Attributed(requests, st) && Enabled(st, step)
    requires !Rivalled(requests, s) && s in requests && requests[s].Store?
    requires !SavedBy(st, s) && Unhindered(s, st) && !SavedBy(Apply(st, step), s)
    ensures Unhindered(s, Apply(st, step))
  {
    SavedStep(st, step, s);
    if step.Call? && st.stored.Some? {
      assert Faithful(requests, step.id, st.processes[step.id]);
      var a := StoredByAnother(requests, st, s);
      assert !Rivals(requests, s, a, step.id);
    }
  }

  lemma {:induction false} UnrivalledIsUnhindered(requests: map<int, Request>, steps: seq<Step>, n: nat, s: int)
    requires n <= |steps| && After(steps, n).Some? && Serves(requests, steps)
    requires !Rivalled(requests, s) && s in requests && requests[s].Store?
    ensures
      var st := After(steps, n).value;
      SavedBy(st, s) || Unhindered(s, st)
    decreases n
  {
    if n > 0 {
      var st := After(steps, n - 1).value;
      UnrivalledIsUnhindered(requests, steps, n - 1, s);
      RunKeepsInv(steps, n - 1);
      RunIsAttributed(requests, steps, n - 1);
      SavedStep(st, steps[n - 1], s);
      if !SavedBy(After(steps, n).value, s) {
        StepUnhindered(requests, st, steps[n - 1], s);
      }
    }
  }

  /** Store `s` meets the document of `a`. */
  lemma InTheWay(requests: map<int, Request>, s: int, a: int)
    requires s in requests && requests[s].Store? && a in requests && requests[a].Store? && a != s
    ensures
      var p, q := requests[a].pairing, requests[s].pairing;
      Reachable(requests, State(Some(Record(0, p)), [Save(a, p)], map[a := Done, s := Replacing(q)], []))
  {
    var p, q := requests[a].pairing, requests[s].pairing;
    OneStored(requests, a, 0);
    var st := State(Some(Record(0, p)), [Save(a, p)], map[a := Done], []);
    Then(requests, st, Begin(s, Store(q)));
    st := Apply(st, Begin(s, Store(q)));
    Then(requests, st, Call(s, 0));
    st := Apply(st, Call(s, 0));
    assert st == State(Some(Record(0, p)), [Save(a, p)], map[a := Done, s := Replacing(q)], []);
  }

  /** Nothing is stored, `s` is about to look for what it has to replace, and only `a` was saved. */
  predicate Missed(st: State, s: int, a: int) {
    && st.stored.None? && s in st.processes && st.processes[s].Replacing? && a != s
    && |st.saves| == 1 && st.saves[0].id == a
  }

  /** Request `x` removes the document of `a` meanwhile. */
  lemma Removal(requests: map<int, Request>, s: int, a: int, x: int) returns (st: State)
    requires s in requests && requests[s].Store? && Rivals(requests, s, a, x)
    ensures Reachable(requests, st) && Missed(st, s, a)
  {
    var p, q := requests[a].pairing, requests[s].pairing;
    InTheWay(requests, s, a);
    st := State(Some(Record(0, p)), [Save(a, p)], map[a := Done, s := Replacing(q)], []);
    var begin := Begin(x, requests[x]);
    Then(requests, st, begin);
    st := Apply(st, begin);
    Then(requests, st, Call(x, 0));
    st := Apply(st, Call(x, 0));
    Then(requests, st, Call(x, 0));
    st := Apply(st, Call(x, 0));
    assert st.processes[x] ==
           if requests[x].Store? then RemovingOld(requests[x].pairing, 0) else Removing(Record(0, p), p.hash, 0);
    Then(requests, st, Call(x, 0));
    st := Apply(st, Call(x, 0));
  }

  lemma StoreLost(requests: map<int, Request>, s: int, a: int, x: int) returns (st: State)
    requires s in requests && requests[s].Store? && Rivals(requests, s, a, x)
    ensures Reachable(requests, st) && Finished(st, s) && !SavedBy(st, s)
  {
    st := Removal(requests, s, a, x);
    Then(requests, st, Call(s, 0));
    st := Apply(st, Call(s, 0));
  }

  /** Whatever the interleaving, store `s` is saved when it is done. */
  ghost predicate SaveGuaranteed(requests: map<int, Request>, s: int) {
    forall steps: seq<Step> :: Serves(requests, steps) && Exec(steps).Some? && Finished(Exec(steps).value, s) ==>
      SavedBy(Exec(steps).value, s)
  }

  /**
   A store is guaranteed to be saved if and only if there is no other store
   beside it together with a third store or a get that has the passphrase of
   that other store.
   */
  lemma StoreSavedExactly(requests: map<int, Request>, s: int)
    requires s in requests && requests[s].Store?
    ensures SaveGuaranteed(requests, s) <==> !Rivalled(requests, s)
  {
    if Rivalled(requests, s) {
      var a, x :| Rivals(requests, s, a, x);
      var st := StoreLost(requests, s, a, x);
      var steps :| Serves(requests, steps) && Exec(steps) == Some(st);
      assert !SavedBy(Exec(steps).value, s);
    } else {
      forall steps: seq<Step> | Serves(requests, steps) && Exec(steps).Some? && Finished(Exec(steps).value, s)
        ensures SavedBy(Exec(steps).value, s)
      {
        UnrivalledIsUnhindered(requests, steps, |steps|, s);
      }
    }
  }
}
