/** record_canonical_source run by many workers at once. Between its database statements a worker
    can be overtaken by any other; it keeps its conversation locked until it commits. */
module RecordRace {
  import opened Wrappers
  import opened CanonicalModel
  import opened CanonicalStore
  import opened CanonicalStoreLaws
  import opened CanonicalBackfill
  import opened BackfillConvergence
  import opened BackfillIsolation
  import opened CanonicalRuns

  /** Where a worker stands: before the conversation lock, holding it, past a lookup that found
      nothing, past the candidate query with what it read, or finished with its answer. */
  datatype Step = Waiting | Holding | Unfound | Planned(matched: Option<nat>, seen: Message) | Done(outcome: Outcome)

  datatype Worker = Worker(raw: Raw, step: Step)

  datatype World = World(store: Store, workers: seq<Worker>)

  datatype Event = Lock(i: nat) | Look(i: nat) | Read(i: nat) | Commit(i: nat) | Backfill(now: int, work: Work)

  predicate Active(x: Worker) {
    x.step.Holding? || x.step.Unfound? || x.step.Planned?
  }

  /** Nobody holds the reservation's conversation. */
  predicate Free(w: World, reservation: Reservation) {
    forall i :: 0 <= i < |w.workers| && Active(w.workers[i]) ==> w.workers[i].raw.reservation != Some(reservation)
  }

  /** What the worker read about its conversation is what reading it now would give. */
  ghost predicate Current(merge: MergeRule, s: Store, x: Worker)
    requires x.step.Planned? && x.raw.reservation.Some?
  {
    var l := LockConversation(s, x.raw.reservation.value);
    x.step.matched == HeuristicMatch(merge, l.store, l.conversation, x.raw.item) &&
    x.step.seen == SeenRow(s, x.step.matched, x.raw)
  }

  ghost predicate WorkerOk(merge: MergeRule, s: Store, x: Worker) {
    (Active(x) ==> x.raw.reservation.Some?) && (x.step.Planned? ==> Current(merge, s, x))
  }

  /** No two workers hold one conversation. */
  ghost predicate Exclusive(w: World) {
    forall i, j :: 0 <= i < j < |w.workers| && Active(w.workers[i]) && Active(w.workers[j]) ==>
      w.workers[i].raw.reservation != w.workers[j].raw.reservation
  }

  ghost predicate Inv(merge: MergeRule, w: World) {
    Valid(w.store) && Exclusive(w) && forall i :: 0 <= i < |w.workers| ==> WorkerOk(merge, w.store, w.workers[i])
  }

  function To(w: World, i: nat, step: Step): World
    requires i < |w.workers|
  {
    w.(workers := w.workers[i := w.workers[i].(step := step)])
  }

  /** Get or create the conversation and hold it, once nobody else does; unrouted rows are skipped. */
  function LockStep(w: World, i: nat): World
    requires i < |w.workers| && w.workers[i].step.Waiting?
  {
    match w.workers[i].raw.reservation
    case None => To(w, i, Done(Skipped))
    case Some(reservation) => if Free(w, reservation) then To(w, i, Holding) else w
  }

  /** A source that is found ends the transaction; the mismatch error rolls it back. */
  function LookStep(w: World, i: nat): World
    requires Linked(w.store) && i < |w.workers| && w.workers[i].raw.reservation.Some?
  {
    var raw := w.workers[i].raw;
    var l := LockConversation(w.store, raw.reservation.value);
    match LookupSource(w.store, raw.reservation.value.tenant, raw)
    case None => To(w, i, Unfound)
    case Some(found) =>
      var answer := Answer(w.store, l.conversation, w.store.sources[found]);
      To(w, i, Done(answer)).(store := if answer == Mismatch then w.store else l.store)
  }

  function ReadStep(merge: MergeRule, w: World, i: nat): World
    requires i < |w.workers| && w.workers[i].raw.reservation.Some?
  {
    var raw := w.workers[i].raw;
    var l := LockConversation(w.store, raw.reservation.value);
    var matched := HeuristicMatch(merge, l.store, l.conversation, raw.item);
    To(w, i, Planned(matched, SeenRow(l.store, matched, raw)))
  }

  /** The savepoint and the commit, with what was read earlier. */
  function CommitStep(w: World, i: nat): World
    requires Linked(w.store) && i < |w.workers| && w.workers[i].raw.reservation.Some? && w.workers[i].step.Planned?
    requires w.workers[i].step.matched.Some? ==> w.workers[i].step.matched.value < |w.store.messages|
  {
    var x := w.workers[i];
    var l := LockConversation(w.store, x.raw.reservation.value);
    var settled := Settle(l.store, x.raw.reservation.value.tenant, l.conversation, x.step.matched, x.step.seen, x.raw);
    To(w, i, Done(settled.outcome)).(store := if settled.outcome == Mismatch then w.store else settled.store)
  }

  predicate Enabled(w: World, e: Event) {
    match e
    case Lock(i) => i < |w.workers| && w.workers[i].step.Waiting?
    case Look(i) => i < |w.workers| && w.workers[i].step.Holding?
    case Read(i) => i < |w.workers| && w.workers[i].step.Unfound?
    case Commit(i) => i < |w.workers| && w.workers[i].step.Planned?
    case Backfill(_, work) => Free(w, work.reservation)
  }

  /** One event; one that cannot happen yet changes nothing. */
  function Next(merge: MergeRule, w: World, e: Event): (w': World)
    requires Inv(merge, w)
    ensures |w'.workers| == |w.workers|
  {
    if !Enabled(w, e) then w
    else
      match e
      case Lock(i) => LockStep(w, i)
      case Look(i) => LookStep(w, i)
      case Read(i) => ReadStep(merge, w, i)
      case Commit(i) => CommitStep(w, i)
      case Backfill(now, work) => w.(store := ProcessReservation(Apply, now, w.store, work, NEW_REPORT).store)
  }

  ghost predicate EventOk(e: Event) {
    e.Backfill? ==> WorkOk(e.work)
  }

  // ---------------------------------------------------------------- every event is at most one serial transaction

  /** The transaction that takes effect at this event, if any. */
  function Effect(w: World, e: Event): Option<Op> {
    if !Enabled(w, e) then None
    else
      match e
      case Lock(i) => None
      case Look(i) =>
        var raw := w.workers[i].raw;
        if raw.reservation.Some? && LookupSource(w.store, raw.reservation.value.tenant, raw).Some? then
          Some(RecordOp(raw))
        else None
      case Read(i) => None
      case Commit(i) => Some(RecordOp(w.workers[i].raw))
      case Backfill(now, work) => Some(BackfillOp(now, work))
  }

  lemma LookIsRecord(merge: MergeRule, w: World, i: nat)
    requires Inv(merge, w) && Enabled(w, Look(i)) && Effect(w, Look(i)).Some?
    ensures var r := Record(merge, w.store, w.workers[i].raw);
            LookStep(w, i) == To(w, i, Done(r.outcome)).(store := r.store)
  {
    var _, _, _ := RecordCases(merge, w.store, w.workers[i].raw);
  }

  lemma CommitIsRecord(merge: MergeRule, w: World, i: nat)
    requires Inv(merge, w) && Enabled(w, Commit(i))
    ensures var r := Record(merge, w.store, w.workers[i].raw);
            Next(merge, w, Commit(i)) == To(w, i, Done(r.outcome)).(store := r.store)
  {
    assert Current(merge, w.store, w.workers[i]);
  }

  /** Each event leaves the store alone or changes it exactly as one uninterrupted transaction would
      at that moment. */
  lemma EventIsSerial(merge: MergeRule, w: World, e: Event)
    requires Inv(merge, w)
    ensures var op := Effect(w, e);
            Next(merge, w, e).store == (if op.Some? then Run(merge, w.store, op.value) else w.store)
  {
    match e
    case Look(i) => if Effect(w, e).Some? { LookIsRecord(merge, w, i); }
    case Commit(i) => if Enabled(w, e) { CommitIsRecord(merge, w, i); }
    case _ =>
  }

  /** From x to x' the worker kept its row and, if it finished, has the answer o. */
  predicate Advances(x: Worker, x': Worker, o: Outcome) {
    x'.raw == x.raw && (x'.step != x.step && x'.step.Done? ==> x'.step.outcome == o)
  }

  /** A worker that finishes does so with the answer that transaction gives. */
  lemma AnswerIsSerial(merge: MergeRule, w: World, e: Event, k: nat)
    requires Inv(merge, w) && k < |w.workers|
    ensures Advances(w.workers[k], Next(merge, w, e).workers[k], Record(merge, w.store, w.workers[k].raw).outcome)
  {
    match e
    case Look(i) => if Effect(w, e).Some? { LookIsRecord(merge, w, i); }
    case Commit(i) => if Enabled(w, e) { CommitIsRecord(merge, w, i); }
    case _ =>
  }

  // ---------------------------------------------------------------- the invariant

  lemma LeavesKeepsCurrent(merge: MergeRule, s: Store, s': Store, x: Worker)
    requires Core(s) && Core(s') && x.step.Planned? && x.raw.reservation.Some?
    requires Leaves(s, s', x.raw.reservation.value) && Current(merge, s, x)
    ensures Current(merge, s', x)
  {
    LeavesKeepsMatch(merge, s, s', x.raw.reservation.value, x.raw.item);
  }

  /** The transaction of one row, or of one reservation, is another's than this one. */
  predicate Elsewhere(op: Op, reservation: Reservation) {
    match op
    case RecordOp(raw) => raw.reservation != Some(reservation)
    case BackfillOp(_, work) => work.reservation != reservation
  }

  lemma OpLeaves(merge: MergeRule, s: Store, op: Op, reservation: Reservation)
    requires Valid(s) && OpOk(op) && Elsewhere(op, reservation)
    ensures Valid(Run(merge, s, op)) && Leaves(s, Run(merge, s, op), reservation)
  {
    RunKeepsValid(merge, s, op);
    match op
    case RecordOp(raw) => RecordLeaves(merge, s, raw, reservation);
    case BackfillOp(now, work) => BackfillLeaves(now, s, work, NEW_REPORT, reservation);
  }

  /** A transaction elsewhere leaves what this worker read as it was. */
  lemma OpKeepsWorker(merge: MergeRule, s: Store, op: Op, x: Worker)
    requires Valid(s) && OpOk(op) && WorkerOk(merge, s, x)
    requires Active(x) && x.raw.reservation.Some? ==> Elsewhere(op, x.raw.reservation.value)
    ensures WorkerOk(merge, Run(merge, s, op), x)
  {
    if x.step.Planned? {
      OpLeaves(merge, s, op, x.raw.reservation.value);
      LeavesKeepsCurrent(merge, s, Run(merge, s, op), x);
    }
  }

  /** What takes effect while a worker is active is elsewhere, unless it is the worker's own. */
  lemma EffectIsElsewhere(w: World, e: Event, k: nat)
    requires Exclusive(w) && k < |w.workers| && Active(w.workers[k]) && w.workers[k].raw.reservation.Some?
    requires e != Look(k) && e != Commit(k) && Effect(w, e).Some?
    requires forall i :: 0 <= i < |w.workers| && Active(w.workers[i]) ==> w.workers[i].raw.reservation.Some?
    ensures Elsewhere(Effect(w, e).value, w.workers[k].raw.reservation.value)
  {
    match e
    case Look(i) => assert Active(w.workers[i]) && (i < k || k < i);
    case Commit(i) => assert Active(w.workers[i]) && (i < k || k < i);
    case _ =>
  }

  /** Only taking the lock makes a worker a holder. */
  lemma NextHolders(merge: MergeRule, w: World, e: Event, k: nat)
    requires Inv(merge, w) && k < |w.workers|
    ensures var x, x' := w.workers[k], Next(merge, w, e).workers[k];
            x'.raw == x.raw &&
            (Active(x') && !Active(x) ==> e == Lock(k) && x.raw.reservation.Some? && Free(w, x.raw.reservation.value))
  {
  }

  lemma NextKeepsExclusive(merge: MergeRule, w: World, e: Event)
    requires Inv(merge, w)
    ensures Exclusive(Next(merge, w, e))
  {
    var w' := Next(merge, w, e);
    forall i, j | 0 <= i < j < |w'.workers| && Active(w'.workers[i]) && Active(w'.workers[j])
      ensures w'.workers[i].raw.reservation != w'.workers[j].raw.reservation
    {
      NextHolders(merge, w, e, i);
      NextHolders(merge, w, e, j);
    }
  }

  lemma NextKeepsInv(merge: MergeRule, w: World, e: Event)
    requires Inv(merge, w) && EventOk(e)
    ensures Inv(merge, Next(merge, w, e))
  {
    var w' := Next(merge, w, e);
    NextKeepsExclusive(merge, w, e);
    EventIsSerial(merge, w, e);
    if Effect(w, e).Some? { RunKeepsValid(merge, w.store, Effect(w, e).value); }
    forall k | 0 <= k < |w'.workers| ensures WorkerOk(merge, w'.store, w'.workers[k]) {
      NextKeepsWorker(merge, w, e, k);
    }
  }

  /** A worker whose own event this is reads what is there, or is done. */
  lemma OwnEventIsOk(merge: MergeRule, w: World, e: Event, k: nat)
    requires Inv(merge, w) && k < |w.workers| && Next(merge, w, e).workers[k] != w.workers[k]
    ensures WorkerOk(merge, Next(merge, w, e).store, Next(merge, w, e).workers[k])
  {
    assert WorkerOk(merge, w.store, w.workers[k]);
  }

  lemma EffectOk(w: World, e: Event)
    requires EventOk(e) && Effect(w, e).Some?
    ensures OpOk(Effect(w, e).value)
  {
  }

  lemma OthersStay(merge: MergeRule, w: World, e: Event, k: nat)
    requires Inv(merge, w) && EventOk(e) && k < |w.workers| && Next(merge, w, e).workers[k] == w.workers[k]
    ensures WorkerOk(merge, Next(merge, w, e).store, w.workers[k])
  {
    assert WorkerOk(merge, w.store, w.workers[k]);
    EventIsSerial(merge, w, e);
    if Effect(w, e).Some? {
      EffectOk(w, e);
      OwnEffectMoves(merge, w, e, k);
      if Active(w.workers[k]) { EffectIsElsewhere(w, e, k); }
      OpKeepsWorker(merge, w.store, Effect(w, e).value, w.workers[k]);
    }
  }

  /** What a worker puts into effect ends its work. */
  lemma OwnEffectMoves(merge: MergeRule, w: World, e: Event, k: nat)
    requires Inv(merge, w) && k < |w.workers| && Effect(w, e).Some?
    ensures e == Look(k) || e == Commit(k) ==> Next(merge, w, e).workers[k] != w.workers[k]
    ensures forall i :: 0 <= i < |w.workers| && Active(w.workers[i]) ==> w.workers[i].raw.reservation.Some?
  {
    forall i | 0 <= i < |w.workers| && Active(w.workers[i]) ensures w.workers[i].raw.reservation.Some? {
      assert WorkerOk(merge, w.store, w.workers[i]);
    }
  }

  lemma NextKeepsWorker(merge: MergeRule, w: World, e: Event, k: nat)
    requires Inv(merge, w) && EventOk(e) && k < |w.workers|
    ensures WorkerOk(merge, Next(merge, w, e).store, Next(merge, w, e).workers[k])
  {
    if Next(merge, w, e).workers[k] == w.workers[k] {
      OthersStay(merge, w, e, k);
    } else {
      OwnEventIsOk(merge, w, e, k);
    }
  }

  // ---------------------------------------------------------------- whole interleavings

  ghost function Exec(merge: MergeRule, w: World, events: seq<Event>): (r: World)
    requires Inv(merge, w) && forall k :: 0 <= k < |events| ==> EventOk(events[k])
    ensures Inv(merge, r) && |r.workers| == |w.workers|
  {
    if events == [] then w
    else
      var before := Exec(merge, w, events[..|events| - 1]);
      NextKeepsInv(merge, before, events[|events| - 1]);
      Next(merge, before, events[|events| - 1])
  }

  /** Everyone about to start. */
  ghost predicate Start(w: World) {
    Valid(w.store) && forall i :: 0 <= i < |w.workers| ==> w.workers[i].step == Waiting
  }

  /** The order in which the interleaved transactions took effect. */
  ghost function Serial(merge: MergeRule, w: World, events: seq<Event>): (ops: seq<Op>)
    requires Inv(merge, w) && forall k :: 0 <= k < |events| ==> EventOk(events[k])
    ensures forall k :: 0 <= k < |ops| ==> OpOk(ops[k])
  {
    if events == [] then []
    else
      var op := Effect(Exec(merge, w, events[..|events| - 1]), events[|events| - 1]);
      assert EventOk(events[|events| - 1]);
      Serial(merge, w, events[..|events| - 1]) + if op.Some? then [op.value] else []
  }

  lemma ExecStep(merge: MergeRule, w: World, events: seq<Event>) returns (before: World, ops: seq<Op>)
    requires Inv(merge, w) && events != [] && forall k :: 0 <= k < |events| ==> EventOk(events[k])
    ensures var n, e := |events| - 1, events[|events| - 1];
            before == Exec(merge, w, events[..n]) && Inv(merge, before) && |before.workers| == |w.workers| &&
            ops == Serial(merge, w, events[..n]) && EventOk(e) && Exec(merge, w, events) == Next(merge, before, e) &&
            Serial(merge, w, events) == (if Effect(before, e).Some? then ops + [Effect(before, e).value] else ops)
  {
    before, ops := Exec(merge, w, events[..|events| - 1]), Serial(merge, w, events[..|events| - 1]);
    assert ops + [] == ops;
  }

  lemma ReplayNext(merge: MergeRule, s: Store, ops: seq<Op>, op: Op)
    requires Valid(s) && OpOk(op) && forall k :: 0 <= k < |ops| ==> OpOk(ops[k])
    ensures Replay(merge, s, ops + [op]) == Run(merge, Replay(merge, s, ops), op)
  {
    assert (ops + [op])[..|ops|] == ops;
  }

  /** Every interleaving leaves the store that the same transactions leave when they are run one
      after the other, in the order in which they took effect. */
  lemma {:induction false} InterleavingIsSerial(merge: MergeRule, w: World, events: seq<Event>)
    requires Inv(merge, w) && forall k :: 0 <= k < |events| ==> EventOk(events[k])
    ensures Exec(merge, w, events).store == Replay(merge, w.store, Serial(merge, w, events))
  {
    if events != [] {
      var e := events[|events| - 1];
      var before, ops := ExecStep(merge, w, events);
      InterleavingIsSerial(merge, w, events[..|events| - 1]);
      EventIsSerial(merge, before, e);
      if Effect(before, e).Some? {
        EffectOk(before, e);
        ReplayNext(merge, w.store, ops, Effect(before, e).value);
      }
    }
  }

  /** The worker's answer is the one recording its row gives after the first k serial transactions. */
  ghost predicate AnsweredAt(merge: MergeRule, s: Store, ops: seq<Op>, k: nat, x: Worker)
    requires Valid(s) && forall j :: 0 <= j < |ops| ==> OpOk(ops[j])
  {
    k <= |ops| && x.step.Done? && x.step.outcome == Record(merge, Replay(merge, s, ops[..k]), x.raw).outcome
  }

  /** Every worker that finished has the answer it would have had in the serial order. */
  lemma {:induction false} InterleavedAnswers(merge: MergeRule, w: World, events: seq<Event>, i: nat) returns (k: nat)
    requires Inv(merge, w) && forall k :: 0 <= k < |events| ==> EventOk(events[k])
    requires i < |w.workers| && !w.workers[i].step.Done? && Exec(merge, w, events).workers[i].step.Done?
    ensures AnsweredAt(merge, w.store, Serial(merge, w, events), k, Exec(merge, w, events).workers[i])
  {
    var e := events[|events| - 1];
    var before, ops := ExecStep(merge, w, events);
    var all := Serial(merge, w, events);
    if before.workers[i].step.Done? {
      k := InterleavedAnswers(merge, w, events[..|events| - 1], i);
      DoneStays(merge, before, e, i);
      FrontIsKept(ops, all, k);
    } else {
      k := |ops|;
      InterleavingIsSerial(merge, w, events[..|events| - 1]);
      AnswerIsSerial(merge, before, e, i);
      FrontIsKept(ops, all, k);
      assert ops[..k] == ops;
    }
  }

  lemma FrontIsKept(ops: seq<Op>, all: seq<Op>, k: nat)
    requires ops <= all && k <= |ops|
    ensures all[..k] == ops[..k]
  {
  }

  lemma DoneStays(merge: MergeRule, w: World, e: Event, i: nat)
    requires Inv(merge, w) && i < |w.workers| && w.workers[i].step.Done?
    ensures Next(merge, w, e).workers[i] == w.workers[i]
  {
  }

  // ---------------------------------------------------------------- what the workers are told

  /** Raw rows that meet in the run: one key, one row. */
  ghost predicate EventRows(w: World, e: Event) {
    (forall i, j :: 0 <= i < |w.workers| && 0 <= j < |w.workers| ==> SameRow(w.workers[i].raw, w.workers[j].raw)) &&
    (e.Backfill? ==> forall i :: 0 <= i < |w.workers| ==> OpRow(BackfillOp(e.now, e.work), w.workers[i].raw))
  }

  /** Everyone who was given a message was given the message their row still resolves to. */
  ghost predicate Told(w: World) {
    forall i :: 0 <= i < |w.workers| ==> ToldOne(w.store, w.workers[i])
  }

  ghost predicate ToldOne(s: Store, x: Worker) {
    x.step.Done? && x.step.outcome.Returned? ==> Resolves(s, x.raw, x.step.outcome.message)
  }

  lemma OpKeepsTold(merge: MergeRule, w: World, e: Event, i: nat)
    requires Inv(merge, w) && EventOk(e) && EventRows(w, e) && Effect(w, e).Some? && i < |w.workers|
    requires ToldOne(w.store, w.workers[i])
    ensures ToldOne(Run(merge, w.store, Effect(w, e).value), w.workers[i])
  {
    var x := w.workers[i];
    if x.step.Done? && x.step.outcome.Returned? {
      EffectOk(w, e);
      EffectRow(w, e, i);
      RunKeepsResolved(merge, w.store, Effect(w, e).value, x.raw, x.step.outcome.message);
    }
  }

  lemma EffectRow(w: World, e: Event, i: nat)
    requires EventRows(w, e) && Effect(w, e).Some? && i < |w.workers|
    ensures OpRow(Effect(w, e).value, w.workers[i].raw)
  {
  }

  lemma NextKeepsTold(merge: MergeRule, w: World, e: Event)
    requires Inv(merge, w) && EventOk(e) && EventRows(w, e) && Told(w)
    ensures Told(Next(merge, w, e))
  {
    var w' := Next(merge, w, e);
    EventIsSerial(merge, w, e);
    forall i | 0 <= i < |w'.workers| ensures ToldOne(w'.store, w'.workers[i]) {
      if w'.workers[i] == w.workers[i] {
        if Effect(w, e).Some? { OpKeepsTold(merge, w, e, i); }
      } else {
        NewlyTold(merge, w, e, i);
      }
    }
  }

  lemma ToldByLook(merge: MergeRule, w: World, i: nat)
    requires Inv(merge, w) && Enabled(w, Look(i)) && Effect(w, Look(i)).Some?
    ensures ToldOne(Next(merge, w, Look(i)).store, Next(merge, w, Look(i)).workers[i])
  {
    RecordResolves(merge, w.store, w.workers[i].raw);
    LookIsRecord(merge, w, i);
  }

  lemma ToldByCommit(merge: MergeRule, w: World, i: nat)
    requires Inv(merge, w) && Enabled(w, Commit(i))
    ensures ToldOne(Next(merge, w, Commit(i)).store, Next(merge, w, Commit(i)).workers[i])
  {
    RecordResolves(merge, w.store, w.workers[i].raw);
    CommitIsRecord(merge, w, i);
  }

  lemma NewlyTold(merge: MergeRule, w: World, e: Event, i: nat)
    requires Inv(merge, w) && i < |w.workers| && Next(merge, w, e).workers[i] != w.workers[i]
    ensures ToldOne(Next(merge, w, e).store, Next(merge, w, e).workers[i])
  {
    match e
    case Look(_) => if Effect(w, e).Some? { ToldByLook(merge, w, i); }
    case Commit(_) => ToldByCommit(merge, w, i);
    case _ =>
  }

  /** In every interleaving: at most one conversation per reservation and one source per raw row and
      per provider id, and all workers that recorded the same row and got a message got the same one. */
  lemma {:induction false} RaceIsSafe(merge: MergeRule, w: World, events: seq<Event>)
    requires Start(w) && forall k :: 0 <= k < |events| ==> EventOk(events[k]) && EventRows(w, events[k])
    ensures var r := Exec(merge, w, events);
            UniqueConversations(r.store) && UniqueKeys(r.store) && UniqueIds(r.store) && Exclusive(r) && Told(r) &&
            forall i :: 0 <= i < |w.workers| ==> r.workers[i].raw == w.workers[i].raw
  {
    if events != [] {
      var e := events[|events| - 1];
      RaceIsSafe(merge, w, events[..|events| - 1]);
      var before, _ := ExecStep(merge, w, events);
      assert EventRows(w, e);
      SameRows(w, before, e);
      NextKeepsTold(merge, before, e);
      forall i | 0 <= i < |w.workers| ensures Next(merge, before, e).workers[i].raw == w.workers[i].raw {
        NextHolders(merge, before, e, i);
      }
    }
  }

  lemma SameRows(w: World, w': World, e: Event)
    requires EventRows(w, e) && |w'.workers| == |w.workers|
    requires forall i :: 0 <= i < |w.workers| ==> w'.workers[i].raw == w.workers[i].raw
    ensures EventRows(w', e)
  {
  }

  lemma SameRowSameMessage(merge: MergeRule, w: World, events: seq<Event>, i: nat, j: nat)
    requires Start(w) && forall k :: 0 <= k < |events| ==> EventOk(events[k]) && EventRows(w, events[k])
    requires i < |w.workers| && j < |w.workers| && w.workers[i].raw == w.workers[j].raw
    requires var r := Exec(merge, w, events);
             r.workers[i].step.Done? && r.workers[i].step.outcome.Returned? &&
             r.workers[j].step.Done? && r.workers[j].step.outcome.Returned?
    ensures Exec(merge, w, events).workers[i].step.outcome == Exec(merge, w, events).workers[j].step.outcome
  {
    RaceIsSafe(merge, w, events);
    var r := Exec(merge, w, events);
    assert ToldOne(r.store, r.workers[i]) && ToldOne(r.store, r.workers[j]);
  }

  /** A worker that planned an insert but finds, at its commit, that another worker's source blocks
      it writes nothing to messages or sources. It returns the message of the source that won, or
      the mismatch error exactly when that message lives in another conversation. */
  lemma LoserTakesWinner(merge: MergeRule, w: World, i: nat) returns (winner: nat)
    requires Inv(merge, w) && Enabled(w, Commit(i))
    requires w.workers[i].raw.reservation.Some? &&
             Clashes(w.store, w.workers[i].raw.reservation.value.tenant, w.workers[i].raw)
    ensures winner < |w.store.sources| &&
            Blocks(w.store.sources[winner], w.workers[i].raw.reservation.value.tenant, w.workers[i].raw)
    ensures var w', m := Next(merge, w, Commit(i)), w.store.sources[winner].message;
            w'.store.messages == w.store.messages && w'.store.sources == w.store.sources &&
            w'.workers[i].step ==
                Done(if LivesIn(w.store, m, w.workers[i].raw.reservation.value) then Returned(m) else Mismatch)
  {
    var raw := w.workers[i].raw;
    winner := LookupSource(w.store, raw.reservation.value.tenant, raw).value;
    CommitIsRecord(merge, w, i);
    RecordAgain(merge, w.store, raw, w.store.sources[winner].message);
  }
}
