/** Workers get somewhere: one that nobody is in the way of records its row as it would alone. */
module RaceProgress {
  import opened Wrappers
  import opened CanonicalModel
  import opened CanonicalStore
  import opened CanonicalBackfill
  import opened CanonicalRuns
  import opened RecordRace

  /** Some other worker is past the lock of the reservation's conversation and not finished. */
  ghost predicate SomebodyHolds(w: World, reservation: Reservation) {
    exists i :: 0 <= i < |w.workers| && !w.workers[i].step.Waiting? && !w.workers[i].step.Done? &&
                w.workers[i].raw.reservation == Some(reservation)
  }

  lemma FreeIff(w: World, reservation: Reservation)
    ensures Free(w, reservation) <==> !SomebodyHolds(w, reservation)
  {
  }

  /** A worker with a routed row takes the lock exactly when nobody holds it, and a backfill step is applied
      exactly then; nothing else changes. */
  lemma LockIff(merge: MergeRule, w: World, i: nat, reservation: Reservation)
    requires Inv(merge, w) && i < |w.workers| && w.workers[i].step == Waiting
    requires w.workers[i].raw.reservation == Some(reservation)
    ensures Next(merge, w, Lock(i)) ==
            if SomebodyHolds(w, reservation) then w
            else World(w.store, w.workers[i := Worker(w.workers[i].raw, Holding)])
  {
    FreeIff(w, reservation);
  }

  lemma BackfillIff(merge: MergeRule, w: World, now: int, work: Work)
    requires Inv(merge, w)
    ensures Next(merge, w, Backfill(now, work)) ==
            if SomebodyHolds(w, work.reservation) then w
            else World(Run(merge, w.store, BackfillOp(now, work)), w.workers)
  {
    FreeIff(w, work.reservation);
    EventIsSerial(merge, w, Backfill(now, work));
  }

  lemma ExecMore(merge: MergeRule, w: World, events: seq<Event>, e: Event)
    requires Inv(merge, w) && EventOk(e) && forall k :: 0 <= k < |events| ==> EventOk(events[k])
    ensures Exec(merge, w, events + [e]) == Next(merge, Exec(merge, w, events), e)
  {
    assert (events + [e])[..|events|] == events;
  }

  /** Holding the lock, a worker whose row has a source is done at its lookup. */
  lemma LookEnds(merge: MergeRule, w: World, i: nat)
    requires Inv(merge, w) && i < |w.workers| && w.workers[i].step == Holding && w.workers[i].raw.reservation.Some?
    ensures var raw := w.workers[i].raw;
            var r := Record(merge, w.store, raw);
            Next(merge, w, Look(i)) ==
            if Clashes(w.store, raw.reservation.value.tenant, raw) then
              World(r.store, w.workers[i := Worker(raw, Done(r.outcome))])
            else World(w.store, w.workers[i := Worker(raw, Unfound)])
  {
    if Clashes(w.store, w.workers[i].raw.reservation.value.tenant, w.workers[i].raw) { LookIsRecord(merge, w, i); }
  }

  /** One that found no source reads the candidates and commits. */
  lemma ReadAndCommit(merge: MergeRule, w: World, i: nat)
    requires Inv(merge, w) && i < |w.workers| && w.workers[i].step == Unfound && w.workers[i].raw.reservation.Some?
    ensures var raw := w.workers[i].raw;
            var r := Record(merge, w.store, raw);
            var planned := Next(merge, w, Read(i));
            Inv(merge, planned) &&
            Next(merge, planned, Commit(i)) == World(r.store, w.workers[i := Worker(raw, Done(r.outcome))])
  {
    NextKeepsInv(merge, w, Read(i));
    CommitIsRecord(merge, Next(merge, w, Read(i)), i);
  }

  lemma OneStep(merge: MergeRule, w: World, a: Event)
    requires Inv(merge, w) && EventOk(a)
    ensures Exec(merge, w, [a]) == Next(merge, w, a)
  {
    assert [a][..0] == [];
  }

  lemma TwoSteps(merge: MergeRule, w: World, a: Event, b: Event)
    requires Inv(merge, w) && EventOk(a) && EventOk(b)
    ensures Inv(merge, Next(merge, w, a)) && Exec(merge, w, [a, b]) == Next(merge, Next(merge, w, a), b)
  {
    NextKeepsInv(merge, w, a);
    OneStep(merge, w, a);
    assert [a, b][..1] == [a];
  }

  /** The worker is done, and the store is the recorded one. */
  ghost predicate IsRecorded(merge: MergeRule, w: World, i: nat, w': World)
    requires Linked(w.store) && i < |w.workers|
  {
    var raw := w.workers[i].raw;
    var r := Record(merge, w.store, raw);
    w' == World(r.store, w.workers[i := Worker(raw, Done(r.outcome))])
  }

  lemma UpdateTwice<T>(xs: seq<T>, i: nat, a: T, b: T)
    requires i < |xs|
    ensures xs[i := a][i := b] == xs[i := b]
  {
  }

  lemma LockAndLook(merge: MergeRule, w: World, i: nat, reservation: Reservation) returns (looked: World)
    requires Inv(merge, w) && i < |w.workers| && w.workers[i].step == Waiting
    requires w.workers[i].raw.reservation == Some(reservation) && !SomebodyHolds(w, reservation)
    ensures looked == Exec(merge, w, [Lock(i), Look(i)]) && Inv(merge, looked)
    ensures IsRecorded(merge, w, i, looked) ||
            looked == World(w.store, w.workers[i := Worker(w.workers[i].raw, Unfound)])
  {
    var held := Next(merge, w, Lock(i));
    LockIff(merge, w, i, reservation);
    TwoSteps(merge, w, Lock(i), Look(i));
    LookEnds(merge, held, i);
    NextKeepsInv(merge, held, Look(i));
    UpdateTwice(w.workers, i, held.workers[i], Worker(w.workers[i].raw, Unfound));
    UpdateTwice(w.workers, i, held.workers[i],
                Worker(w.workers[i].raw, Done(Record(merge, w.store, w.workers[i].raw).outcome)));
    looked := Next(merge, held, Look(i));
  }

  lemma RecordedAfter(merge: MergeRule, w: World, i: nat, looked: World, w': World)
    requires Linked(w.store) && i < |w.workers|
    requires looked == World(w.store, w.workers[i := Worker(w.workers[i].raw, Unfound)])
    requires IsRecorded(merge, looked, i, w')
    ensures IsRecorded(merge, w, i, w')
  {
    var raw := w.workers[i].raw;
    UpdateTwice(w.workers, i, Worker(raw, Unfound), Worker(raw, Done(Record(merge, w.store, raw).outcome)));
  }

  lemma DoneIsDone(merge: MergeRule, w: World, i: nat)
    requires Inv(merge, w) && i < |w.workers| && w.workers[i].step.Done?
    ensures Exec(merge, w, [Read(i), Commit(i)]) == w
  {
    TwoSteps(merge, w, Read(i), Commit(i));
  }

  lemma UnfoundIsRecorded(merge: MergeRule, w: World, i: nat)
    requires Inv(merge, w) && i < |w.workers| && w.workers[i].step == Unfound && w.workers[i].raw.reservation.Some?
    ensures IsRecorded(merge, w, i, Exec(merge, w, [Read(i), Commit(i)]))
  {
    TwoSteps(merge, w, Read(i), Commit(i));
    ReadAndCommit(merge, w, i);
  }

  lemma EndsRecorded(merge: MergeRule, w: World, i: nat, looked: World)
    requires Linked(w.store) && i < |w.workers| && w.workers[i].raw.reservation.Some? && Inv(merge, looked)
    requires IsRecorded(merge, w, i, looked) ||
             looked == World(w.store, w.workers[i := Worker(w.workers[i].raw, Unfound)])
    ensures IsRecorded(merge, w, i, Exec(merge, looked, [Read(i), Commit(i)]))
  {
    if looked.workers[i].step.Done? {
      DoneIsDone(merge, looked, i);
    } else {
      UnfoundIsRecorded(merge, looked, i);
      RecordedAfter(merge, w, i, looked, Exec(merge, looked, [Read(i), Commit(i)]));
    }
  }

  /** The four steps of a worker in whose way nobody is, one after the other, are recording its row: the store is
      the recorded one, the worker has its answer, and nobody else has moved. */
  lemma AloneIsRecord(merge: MergeRule, w: World, i: nat, reservation: Reservation)
    requires Inv(merge, w) && i < |w.workers| && w.workers[i].step == Waiting
    requires w.workers[i].raw.reservation == Some(reservation) && !SomebodyHolds(w, reservation)
    ensures var w' := Exec(merge, w, [Lock(i), Look(i)]);
            IsRecorded(merge, w, i, Exec(merge, w', [Read(i), Commit(i)]))
  {
    var looked := LockAndLook(merge, w, i, reservation);
    EndsRecorded(merge, w, i, looked);
  }
}
