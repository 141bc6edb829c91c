/** Sending the check-in link: concurrent workers claim the session row, call the provider while they
    hold it, stamp it and commit. */
module CheckinClaim {
  import opened Wrappers

  datatype Result = Sent | SessionMissing | AlreadyDistributed | Refused | Raised

  /** Where a worker stands: before the row lock, holding it, past the provider's acceptance, past the
      stamp, or finished. */
  datatype Pc = Waiting | Claimed | Accepted | Stamped | Done(result: Result)

  datatype Worker = Worker(session: nat, pc: Pc)

  /** The session rows with their distributed flag, the workers, and two logs by session: messages the
      provider accepted, and transactions that were lost after an acceptance. */
  datatype World = World(rows: map<nat, bool>, workers: seq<Worker>, accepted: seq<nat>, lost: seq<nat>)

  datatype Event =
    | Claim(i: nat)
    | CallProvider(i: nat, accepts: bool)
    | Stamp(i: nat)
    | Commit(i: nat)
    | Fail(i: nat)
    | DistributeElsewhere(session: nat)

  predicate Holds(x: Worker, session: nat) {
    x.session == session && (x.pc.Claimed? || x.pc.Accepted? || x.pc.Stamped?)
  }

  predicate Held(w: World, session: nat) {
    exists i :: 0 <= i < |w.workers| && Holds(w.workers[i], session)
  }

  function To(w: World, i: nat, pc: Pc): World
    requires i < |w.workers|
  {
    w.(workers := w.workers[i := w.workers[i].(pc := pc)])
  }

  predicate Enabled(w: World, e: Event) {
    match e
    case Claim(i) => i < |w.workers| && w.workers[i].pc.Waiting? && !Held(w, w.workers[i].session)
    case CallProvider(i, _) => i < |w.workers| && w.workers[i].pc.Claimed?
    case Stamp(i) => i < |w.workers| && w.workers[i].pc.Accepted?
    case Commit(i) => i < |w.workers| && w.workers[i].pc.Stamped?
    case Fail(i) => i < |w.workers| && Holds(w.workers[i], w.workers[i].session)
    case DistributeElsewhere(session) => session in w.rows && !Held(w, session)
  }

  /** One event; a claim waits for the lock, and what is not enabled changes nothing. The stamp is
      seen by others only when it is committed; a failure in the transaction rolls it back. */
  function Next(w: World, e: Event): World {
    if !Enabled(w, e) then w
    else
      match e
      case Claim(i) =>
        var session := w.workers[i].session;
        if session !in w.rows then To(w, i, Done(SessionMissing))
        else if w.rows[session] then To(w, i, Done(AlreadyDistributed))
        else To(w, i, Claimed)
      case CallProvider(i, accepts) =>
        if accepts then To(w, i, Accepted).(accepted := w.accepted + [w.workers[i].session])
        else To(w, i, Done(Refused))
      case Stamp(i) => To(w, i, Stamped)
      case Commit(i) => To(w, i, Done(Sent)).(rows := w.rows[w.workers[i].session := true])
      case Fail(i) =>
        To(w, i, Done(Raised)).(lost := if w.workers[i].pc.Claimed? then w.lost else w.lost + [w.workers[i].session])
      case DistributeElsewhere(session) => w.(rows := w.rows[session := true])
  }

  function Count(log: seq<nat>, session: nat): nat {
    if log == [] then 0
    else Count(log[..|log| - 1], session) + if log[|log| - 1] == session then 1 else 0
  }

  function CountSent(workers: seq<Worker>, session: nat): nat {
    if workers == [] then 0
    else CountSent(workers[..|workers| - 1], session) +
         if workers[|workers| - 1] == Worker(session, Done(Sent)) then 1 else 0
  }

  /** Between acceptance and commit. */
  predicate InFlight(x: Worker, session: nat) {
    x.session == session && (x.pc.Accepted? || x.pc.Stamped?)
  }

  function CountInFlight(workers: seq<Worker>, session: nat): nat {
    if workers == [] then 0
    else CountInFlight(workers[..|workers| - 1], session) + if InFlight(workers[|workers| - 1], session) then 1 else 0
  }

  // ---------------------------------------------------------------- the invariant

  /** No two workers are in the provider section of one session, whose row is not yet distributed. */
  ghost predicate Exclusive(w: World) {
    (forall i, j, s :: 0 <= i < j < |w.workers| && Holds(w.workers[i], s) ==> !Holds(w.workers[j], s)) &&
    (forall i, s :: 0 <= i < |w.workers| && Holds(w.workers[i], s) ==> s in w.rows && !w.rows[s])
  }

  /** Every acceptance is in flight, committed or lost; a session is committed at most once, and then
      its row is distributed. */
  ghost predicate Accounted(w: World, s: nat) {
    Count(w.accepted, s) == CountInFlight(w.workers, s) + CountSent(w.workers, s) + Count(w.lost, s) &&
    CountSent(w.workers, s) <= (if s in w.rows && w.rows[s] then 1 else 0)
  }

  ghost predicate Inv(w: World) {
    Exclusive(w) && forall s :: Accounted(w, s)
  }

  lemma {:induction false} SentOfUpdate(workers: seq<Worker>, i: nat, pc: Pc, s: nat)
    requires i < |workers|
    ensures CountSent(workers[i := workers[i].(pc := pc)], s) + (if workers[i] == Worker(s, Done(Sent)) then 1 else 0)
         == CountSent(workers, s) + (if workers[i].session == s && pc == Done(Sent) then 1 else 0)
  {
    var n := |workers| - 1;
    var updated := workers[i := workers[i].(pc := pc)];
    if i < n {
      assert updated[..n] == workers[..n][i := workers[..n][i].(pc := pc)];
      SentOfUpdate(workers[..n], i, pc, s);
    } else {
      assert updated[..n] == workers[..n];
    }
  }

  lemma {:induction false} InFlightOfUpdate(workers: seq<Worker>, i: nat, pc: Pc, s: nat)
    requires i < |workers|
    ensures CountInFlight(workers[i := workers[i].(pc := pc)], s) + (if InFlight(workers[i], s) then 1 else 0)
         == CountInFlight(workers, s) + (if workers[i].session == s && (pc.Accepted? || pc.Stamped?) then 1 else 0)
  {
    var n := |workers| - 1;
    var updated := workers[i := workers[i].(pc := pc)];
    if i < n {
      assert updated[..n] == workers[..n][i := workers[..n][i].(pc := pc)];
      InFlightOfUpdate(workers[..n], i, pc, s);
    } else {
      assert updated[..n] == workers[..n];
    }
  }

  lemma CountOfAppend(log: seq<nat>, x: nat, s: nat)
    ensures Count(log + [x], s) == Count(log, s) + if x == s then 1 else 0
  {
    assert (log + [x])[..|log|] == log;
  }

  /** Only a claim makes a worker a holder, and only of a row that nobody holds. */
  lemma NextHolders(w: World, e: Event, k: nat, s: nat)
    requires k < |w.workers|
    ensures Holds(Next(w, e).workers[k], s) && !Holds(w.workers[k], s) ==>
              e == Claim(k) && !Held(w, s) && s in w.rows && !w.rows[s]
    ensures |Next(w, e).workers| == |w.workers|
  {
  }

  lemma NextRows(w: World, e: Event, k: nat, s: nat)
    requires Exclusive(w) && k < |w.workers| && Holds(w.workers[k], s) && Holds(Next(w, e).workers[k], s)
    ensures s in Next(w, e).rows && !Next(w, e).rows[s]
  {
    if e.Commit? && Enabled(w, e) && e.i != k {
      assert Holds(w.workers[e.i], w.workers[e.i].session);
      assert e.i < k || k < e.i;
    }
  }

  lemma NextKeepsExclusive(w: World, e: Event)
    requires Exclusive(w)
    ensures Exclusive(Next(w, e))
  {
    var w' := Next(w, e);
    forall i, j, s | 0 <= i < j < |w'.workers| && Holds(w'.workers[i], s) ensures !Holds(w'.workers[j], s) {
      NextHolders(w, e, i, s);
      NextHolders(w, e, j, s);
    }
    forall i, s | 0 <= i < |w'.workers| && Holds(w'.workers[i], s) ensures s in w'.rows && !w'.rows[s] {
      NextHolders(w, e, i, s);
      if Holds(w.workers[i], s) { NextRows(w, e, i, s); }
    }
  }

  /** What moving worker i does to the counts of a session. */
  lemma Moved(w: World, i: nat, pc: Pc, s: nat)
    requires i < |w.workers|
    ensures var x, w' := w.workers[i], To(w, i, pc);
            CountSent(w'.workers, s) + (if x == Worker(s, Done(Sent)) then 1 else 0)
              == CountSent(w.workers, s) + (if x.session == s && pc == Done(Sent) then 1 else 0) &&
            CountInFlight(w'.workers, s) + (if InFlight(x, s) then 1 else 0)
              == CountInFlight(w.workers, s) + (if x.session == s && (pc.Accepted? || pc.Stamped?) then 1 else 0)
  {
    SentOfUpdate(w.workers, i, pc, s);
    InFlightOfUpdate(w.workers, i, pc, s);
  }

  lemma ClaimKeeps(w: World, i: nat, s: nat)
    requires Accounted(w, s) && Enabled(w, Claim(i))
    ensures Accounted(Next(w, Claim(i)), s)
  {
    Moved(w, i, Next(w, Claim(i)).workers[i].pc, s);
  }

  lemma ProviderKeeps(w: World, i: nat, accepts: bool, s: nat)
    requires Accounted(w, s) && Enabled(w, CallProvider(i, accepts))
    ensures Accounted(Next(w, CallProvider(i, accepts)), s)
  {
    CountOfAppend(w.accepted, w.workers[i].session, s);
    Moved(w, i, if accepts then Accepted else Done(Refused), s);
  }

  lemma CommitKeeps(w: World, i: nat, s: nat)
    requires Exclusive(w) && Accounted(w, s) && Enabled(w, Commit(i))
    ensures Accounted(Next(w, Commit(i)), s)
  {
    assert Holds(w.workers[i], w.workers[i].session);
    Moved(w, i, Done(Sent), s);
  }

  lemma FailKeeps(w: World, i: nat, s: nat)
    requires Accounted(w, s) && Enabled(w, Fail(i))
    ensures Accounted(Next(w, Fail(i)), s)
  {
    CountOfAppend(w.lost, w.workers[i].session, s);
    Moved(w, i, Done(Raised), s);
  }

  lemma NextKeepsAccounted(w: World, e: Event, s: nat)
    requires Exclusive(w) && Accounted(w, s)
    ensures Accounted(Next(w, e), s)
  {
    if Enabled(w, e) {
      match e
      case Claim(i) => ClaimKeeps(w, i, s);
      case CallProvider(i, accepts) => ProviderKeeps(w, i, accepts, s);
      case Stamp(i) => Moved(w, i, Stamped, s);
      case Commit(i) => CommitKeeps(w, i, s);
      case Fail(i) => FailKeeps(w, i, s);
      case DistributeElsewhere(_) =>
    }
  }

  lemma NextKeepsInv(w: World, e: Event)
    requires Inv(w)
    ensures Inv(Next(w, e))
  {
    NextKeepsExclusive(w, e);
    forall s ensures Accounted(Next(w, e), s) {
      assert Accounted(w, s);
      NextKeepsAccounted(w, e, s);
    }
  }

  // ---------------------------------------------------------------- every interleaving

  function Exec(w: World, events: seq<Event>): World {
    if events == [] then w else Next(Exec(w, events[..|events| - 1]), events[|events| - 1])
  }

  predicate Start(w: World) {
    w.accepted == [] && w.lost == [] && forall i :: 0 <= i < |w.workers| ==> w.workers[i].pc == Waiting
  }

  lemma {:induction false} NobodyStarted(workers: seq<Worker>, s: nat)
    requires forall i :: 0 <= i < |workers| ==> workers[i].pc == Waiting
    ensures CountSent(workers, s) == CountInFlight(workers, s) == 0
  {
    if workers != [] { NobodyStarted(workers[..|workers| - 1], s); }
  }

  lemma {:induction false} ExecKeepsInv(w: World, events: seq<Event>)
    requires Start(w)
    ensures Inv(Exec(w, events))
  {
    if events == [] {
      forall s ensures Accounted(w, s) { NobodyStarted(w.workers, s); }
    } else {
      ExecKeepsInv(w, events[..|events| - 1]);
      NextKeepsInv(Exec(w, events[..|events| - 1]), events[|events| - 1]);
    }
  }

  lemma {:induction false} OneInFlight(w: World, s: nat, n: nat)
    requires Exclusive(w) && n <= |w.workers|
    ensures CountInFlight(w.workers[..n], s) <= 1
    ensures CountInFlight(w.workers[..n], s) == 1 ==> exists i :: 0 <= i < n && Holds(w.workers[i], s)
  {
    if n > 0 {
      OneInFlight(w, s, n - 1);
      assert w.workers[..n][..n - 1] == w.workers[..n - 1];
      if InFlight(w.workers[n - 1], s) { assert Holds(w.workers[n - 1], s); }
    }
  }

  /** No session has a worker in flight and a committed one. */
  lemma OneAtMost(w: World, s: nat)
    requires Inv(w)
    ensures CountInFlight(w.workers, s) + CountSent(w.workers, s) <= 1
  {
    assert Accounted(w, s);
    OneInFlight(w, s, |w.workers|);
    assert w.workers[..|w.workers|] == w.workers;
  }

  /** In every interleaving: no two workers are in the provider section of one session, at most one worker
      per session reports a send, and every message the provider accepted is in flight, was reported as sent
      or was lost with its transaction. So it accepted at most one message for the session exactly when none
      was lost, or one was and none has been accepted besides. */
  lemma AtMostOneSend(w: World, events: seq<Event>, s: nat)
    requires Start(w)
    ensures var r := Exec(w, events);
            Exclusive(r) && CountSent(r.workers, s) <= 1 &&
            Count(r.accepted, s) == CountInFlight(r.workers, s) + CountSent(r.workers, s) + Count(r.lost, s) &&
            (Count(r.accepted, s) <= 1 <==>
             Count(r.lost, s) == 0 ||
             (Count(r.lost, s) == 1 && CountInFlight(r.workers, s) == CountSent(r.workers, s) == 0))
  {
    ExecKeepsInv(w, events);
    assert Accounted(Exec(w, events), s);
    OneAtMost(Exec(w, events), s);
  }

  lemma {:induction false} NobodyIsInFlight(w: World, i: nat, s: nat, n: nat)
    requires Exclusive(w) && i < |w.workers| && w.workers[i] == Worker(s, Claimed) && n <= |w.workers|
    ensures CountInFlight(w.workers[..n], s) == 0
  {
    if n > 0 {
      NobodyIsInFlight(w, i, s, n - 1);
      assert w.workers[..n][..n - 1] == w.workers[..n - 1];
      assert Holds(w.workers[i], s);
      if i < n - 1 { assert !Holds(w.workers[n - 1], s); } else if n - 1 < i { assert !Holds(w.workers[n - 1], s); }
    }
  }

  /** Whenever the provider is called for a session, the messages it has accepted are just those that were
      lost: the call sends a further message exactly when an accepted one was lost before. */
  lemma CallRepeatsOnlyLost(w: World, events: seq<Event>, i: nat)
    requires Start(w) && i < |Exec(w, events).workers| && Exec(w, events).workers[i].pc == Claimed
    ensures var r := Exec(w, events); Count(r.accepted, r.workers[i].session) == Count(r.lost, r.workers[i].session)
  {
    var r := Exec(w, events);
    var s := r.workers[i].session;
    ExecKeepsInv(w, events);
    assert Accounted(r, s) && Holds(r.workers[i], s);
    NobodyIsInFlight(r, i, s, |r.workers|);
    assert r.workers[..|r.workers|] == r.workers;
  }

  // ---------------------------------------------------------------- after the send

  lemma NextAfterSend(w: World, e: Event, s: nat)
    requires Inv(w) && s in w.rows && w.rows[s]
    ensures var w' := Next(w, e);
            s in w'.rows && w'.rows[s] && Count(w'.accepted, s) == Count(w.accepted, s)
  {
    if Enabled(w, e) && e.CallProvider? {
      assert Holds(w.workers[e.i], w.workers[e.i].session);
      CountOfAppend(w.accepted, w.workers[e.i].session, s);
    }
  }

  /** Once a session is distributed it stays so, the provider is not called for it any more, and a
      worker whose turn comes later skips. */
  lemma {:induction false} LaterWorkersSkip(w: World, events: seq<Event>, s: nat, i: nat)
    requires Inv(w) && s in w.rows && w.rows[s]
    requires i < |w.workers| && w.workers[i] == Worker(s, Waiting)
    ensures var r := Exec(w, events);
            Inv(r) && s in r.rows && r.rows[s] && Count(r.accepted, s) == Count(w.accepted, s) &&
            |r.workers| == |w.workers| && r.workers[i].session == s &&
            (r.workers[i].pc == Waiting || r.workers[i].pc == Done(AlreadyDistributed))
  {
    if events != [] {
      var before, e := Exec(w, events[..|events| - 1]), events[|events| - 1];
      LaterWorkersSkip(w, events[..|events| - 1], s, i);
      NextKeepsInv(before, e);
      NextAfterSend(before, e, s);
    }
  }

  /** A worker that reports a send has committed the distributed flag. */
  lemma SentIsDistributed(w: World, s: nat, i: nat)
    requires Inv(w) && i < |w.workers| && w.workers[i] == Worker(s, Done(Sent))
    ensures s in w.rows && w.rows[s]
  {
    assert Accounted(w, s);
    SentCounts(w.workers, i, s);
  }

  lemma {:induction false} SentCounts(workers: seq<Worker>, i: nat, s: nat)
    requires i < |workers| && workers[i] == Worker(s, Done(Sent))
    ensures CountSent(workers, s) >= 1
  {
    if i < |workers| - 1 { SentCounts(workers[..|workers| - 1], i, s); }
  }

  lemma ExecMore(w: World, events: seq<Event>, e: Event)
    ensures Exec(w, events + [e]) == Next(Exec(w, events), e)
  {
    assert (events + [e])[..|events|] == events;
  }

  /** A worker that claims, is accepted and loses its transaction; the row is free again. */
  lemma SendIsLost(w: World, events: seq<Event>, i: nat)
    requires var r := Exec(w, events);
             Enabled(r, Claim(i)) && r.workers[i].session in r.rows && !r.rows[r.workers[i].session]
    ensures var r := Exec(w, events);
            Exec(w, events + [Claim(i)] + [CallProvider(i, true)] + [Fail(i)]) ==
            World(r.rows, r.workers[i := r.workers[i].(pc := Done(Raised))],
                  r.accepted + [r.workers[i].session], r.lost + [r.workers[i].session])
  {
    ExecMore(w, events, Claim(i));
    ExecMore(w, events + [Claim(i)], CallProvider(i, true));
    ExecMore(w, events + [Claim(i)] + [CallProvider(i, true)], Fail(i));
  }

  /** Whatever happened before, a claim whose commit is lost leaves the row free and undistributed, with one
      more message accepted and lost. */
  lemma LostCommitFreesRow(w: World, events: seq<Event>, i: nat)
    requires Start(w) && Enabled(Exec(w, events), Claim(i))
    requires var r := Exec(w, events); r.workers[i].session in r.rows && !r.rows[r.workers[i].session]
    ensures var r, s := Exec(w, events), Exec(w, events).workers[i].session;
            var r' := Exec(w, events + [Claim(i)] + [CallProvider(i, true)] + [Fail(i)]);
            s in r'.rows && !r'.rows[s] && !Held(r', s) &&
            Count(r'.accepted, s) == Count(r.accepted, s) + 1 && Count(r'.lost, s) == Count(r.lost, s) + 1
  {
    var r := Exec(w, events);
    var s := r.workers[i].session;
    SendIsLost(w, events, i);
    CountOfAppend(r.accepted, s, s);
    CountOfAppend(r.lost, s, s);
  }

  lemma {:induction false} ExecAppend(w: World, a: seq<Event>, b: seq<Event>)
    ensures Exec(w, a + b) == Exec(Exec(w, a), b)
  {
    if b == [] {
      assert a + b == a;
    } else {
      var n := |b| - 1;
      ExecAppend(w, a, b[..n]);
      assert (a + b)[..|a + b| - 1] == a + b[..n];
    }
  }

  /** A claim that the provider accepts. */
  lemma ClaimAndSend(w: World, i: nat, s: nat)
    requires i < |w.workers| && w.workers[i] == Worker(s, Waiting) && s in w.rows && !w.rows[s] && !Held(w, s)
    ensures Exec(w, [Claim(i), CallProvider(i, true)]) ==
            World(w.rows, w.workers[i := Worker(s, Accepted)], w.accepted + [s], w.lost)
  {
    var run := [Claim(i), CallProvider(i, true)];
    assert run[..1] == [Claim(i)] && run[..1][..0] == [];
    assert Exec(w, run[..1][..0]) == w;
    assert Exec(w, run[..1]) == Next(w, Claim(i));
  }

  lemma NobodyHolds(w: World, s: nat)
    requires forall k :: 0 <= k < |w.workers| ==> !Holds(w.workers[k], s)
    ensures !Held(w, s)
  {
  }

  /** A claim whose commit is lost, when nobody has begun. */
  lemma LostFirst(w: World, i: nat, s: nat) returns (r: World)
    requires Start(w) && i < |w.workers| && w.workers[i].session == s && s in w.rows && !w.rows[s]
    ensures r == Exec(w, [Claim(i), CallProvider(i, true), Fail(i)])
    ensures r == World(w.rows, w.workers[i := Worker(s, Done(Raised))], [s], [s]) && !Held(r, s)
  {
    NobodyHolds(w, s);
    SendIsLost(w, [], i);
    assert [] + [Claim(i)] + [CallProvider(i, true)] + [Fail(i)] == [Claim(i), CallProvider(i, true), Fail(i)];
    r := Exec(w, [Claim(i), CallProvider(i, true), Fail(i)]);
    NobodyHolds(r, s);
  }

  /** Two workers do send two messages for one session when the first one's commit is lost. */
  lemma TwoAreSent(w: World, i: nat, j: nat, s: nat)
    requires Start(w) && i < |w.workers| && j < |w.workers| && i != j
    requires w.workers[i].session == w.workers[j].session == s && s in w.rows && !w.rows[s]
    ensures var r := Exec(w, [Claim(i), CallProvider(i, true), Fail(i)] + [Claim(j), CallProvider(j, true)]);
            Count(r.accepted, s) == 2 && Count(r.lost, s) == 1
  {
    var r := LostFirst(w, i, s);
    ClaimAndSend(r, j, s);
    ExecAppend(w, [Claim(i), CallProvider(i, true), Fail(i)], [Claim(j), CallProvider(j, true)]);
    CountOfAppend([], s, s);
    CountOfAppend([s], s, s);
    assert [] + [s] == [s];
  }

  // ---------------------------------------------------------------- one worker's procedure

  /** The worker's next event is one that its place in the procedure allows. */
  predicate Ready(pc: Pc, e: Event) {
    match e
    case Claim(_) => pc.Waiting?
    case CallProvider(_, _) => pc.Claimed?
    case Stamp(_) => pc.Accepted?
    case Commit(_) => pc.Stamped?
    case Fail(_) => pc.Claimed? || pc.Accepted? || pc.Stamped?
    case DistributeElsewhere(_) => false
  }

  /** Where that leaves it. */
  function PcAfter(rows: map<nat, bool>, session: nat, e: Event): Pc {
    match e
    case Claim(_) =>
      if session !in rows then Done(SessionMissing) else if rows[session] then Done(AlreadyDistributed) else Claimed
    case CallProvider(_, accepts) => if accepts then Accepted else Done(Refused)
    case Stamp(_) => Stamped
    case Commit(_) => Done(Sent)
    case Fail(_) => Done(Raised)
    case DistributeElsewhere(_) => Waiting
  }

  lemma OwnNext(w: World, e: Event, i: nat)
    requires !Foreign(e, i) && i < |w.workers| && Ready(w.workers[i].pc, e)
    requires e.Claim? ==> !Held(w, w.workers[i].session)
    ensures var w' := Next(w, e);
            |w'.workers| == |w.workers| &&
            w'.workers[i] == Worker(w.workers[i].session, PcAfter(w.rows, w.workers[i].session, e))
  {
  }

  /** Where the procedure raises, if it does: before the provider has accepted, before or after the stamp. */
  datatype Fault = NoFault | AtCall | AtStamp | AtCommit

  /** The event is another's than worker i's. */
  predicate Foreign(e: Event, i: nat) {
    e.DistributeElsewhere? || e.i != i
  }

  lemma ForeignNext(w: World, e: Event, i: nat)
    requires Foreign(e, i) && i < |w.workers|
    ensures |Next(w, e).workers| == |w.workers| && Next(w, e).workers[i] == w.workers[i]
  {
  }

  /** The answer to a worker whose turn for the row has come in w; none while the row is held. */
  function AnswerAt(w: World, session: nat, accepts: bool, fault: Fault): Option<Result> {
    if Held(w, session) then None
    else if session !in w.rows then Some(SessionMissing)
    else if w.rows[session] then Some(AlreadyDistributed)
    else if fault == AtCall then Some(Raised)
    else if !accepts then Some(Refused)
    else if fault != NoFault then Some(Raised)
    else Some(Sent)
  }

  /** What the worker itself does on the way to that answer, in order. */
  function OwnEvents(i: nat, answer: Option<Result>, fault: Fault): seq<Event> {
    match answer
    case None => []
    case Some(Sent) => [Claim(i), CallProvider(i, true), Stamp(i), Commit(i)]
    case Some(Refused) => [Claim(i), CallProvider(i, false)]
    case Some(Raised) =>
      if fault == AtCall then [Claim(i), Fail(i)]
      else if fault == AtStamp then [Claim(i), CallProvider(i, true), Fail(i)]
      else [Claim(i), CallProvider(i, true), Stamp(i), Fail(i)]
    case Some(_) => [Claim(i)]
  }

  /** The events of a run that are worker i's, in order. */
  function OwnOf(events: seq<Event>, i: nat): seq<Event> {
    if events == [] then []
    else
      var last := events[|events| - 1];
      OwnOf(events[..|events| - 1], i) + if Foreign(last, i) then [] else [last]
  }

  lemma OwnOfMore(events: seq<Event>, e: Event, i: nat)
    ensures OwnOf(events + [e], i) == OwnOf(events, i) + if Foreign(e, i) then [] else [e]
  {
    assert (events + [e])[..|events|] == events;
  }

  lemma LastIsApart(events: seq<Event>, others: seq<Event>)
    requires others != []
    ensures events + others == (events + others[..|others| - 1]) + [others[|others| - 1]]
  {
  }

  lemma {:induction false} OwnOfForeign(events: seq<Event>, others: seq<Event>, i: nat)
    requires forall k :: 0 <= k < |others| ==> Foreign(others[k], i)
    ensures OwnOf(events + others, i) == OwnOf(events, i)
  {
    if others == [] {
      assert events + others == events;
    } else {
      var front, e := others[..|others| - 1], others[|others| - 1];
      OwnOfForeign(events, front, i);
      OwnOfMore(events + front, e, i);
      LastIsApart(events, others);
    }
  }

  /** A run from w to w' that goes on from `first`, in which worker i did just `own`. */
  ghost predicate Traced(w: World, w': World, first: seq<Event>, events: seq<Event>, i: nat, own: seq<Event>) {
    w' == Exec(w, events) && first <= events && OwnOf(events, i) == own
  }

  lemma TraceOwn(w: World, w': World, first: seq<Event>, events: seq<Event>, i: nat, own: seq<Event>, e: Event)
    requires Traced(w, w', first, events, i, own) && !Foreign(e, i)
    ensures Traced(w, Next(w', e), first, events + [e], i, own + [e])
  {
    ExecMore(w, events, e);
    OwnOfMore(events, e, i);
  }

  lemma TraceForeign(w: World, w': World, first: seq<Event>, events: seq<Event>, i: nat, own: seq<Event>,
                     others: seq<Event>)
    requires Traced(w, w', first, events, i, own) && forall k :: 0 <= k < |others| ==> Foreign(others[k], i)
    ensures Traced(w, Exec(w', others), first, events + others, i, own)
  {
    ExecAppend(w, events, others);
    OwnOfForeign(events, others, i);
  }

  /** The rows and the workers as they are changed step by step. */
  class ClaimTable {
    var rows: map<nat, bool>
    var workers: seq<Worker>
    ghost var accepted: seq<nat>
    ghost var lost: seq<nat>

    ghost function View(): World
      reads this
    {
      World(rows, workers, accepted, lost)
    }

    method Locked(session: nat) returns (held: bool)
      ensures held <==> Held(View(), session)
    {
      for i := 0 to |workers|
        invariant forall j :: 0 <= j < i ==> !Holds(workers[j], session)
      {
        if Holds(workers[i], session) { return true; }
      }
      return false;
    }

    method Go(i: nat, pc: Pc)
      requires i < |workers|
      modifies this`workers
      ensures workers == old(workers)[i := old(workers)[i].(pc := pc)]
    {
      workers := workers[i := workers[i].(pc := pc)];
    }

    /** `select_for_update`, and the two checks on the locked row. */
    method ClaimRow(i: nat)
      requires i < |workers| && workers[i].pc.Waiting?
      modifies this
      ensures View() == Next(old(View()), Claim(i))
    {
      var held := Locked(workers[i].session);
      if held { return; }
      if workers[i].session !in rows {
        Go(i, Done(SessionMissing));
      } else if rows[workers[i].session] {
        Go(i, Done(AlreadyDistributed));
      } else {
        Go(i, Claimed);
      }
    }

    /** The provider call under the lock. */
    method SendMessage(i: nat, accepts: bool)
      requires i < |workers| && workers[i].pc.Claimed?
      modifies this
      ensures View() == Next(old(View()), CallProvider(i, accepts))
    {
      if accepts {
        accepted := accepted + [workers[i].session];
        Go(i, Accepted);
      } else {
        Go(i, Done(Refused));
      }
    }

    /** mark_checkin_link_distributed, inside the transaction. */
    method StampRow(i: nat)
      requires i < |workers| && workers[i].pc.Accepted?
      modifies this
      ensures View() == Next(old(View()), Stamp(i))
    {
      Go(i, Stamped);
    }

    /** An exception or a crash inside the transaction: the row is released as it was. */
    method RollBack(i: nat)
      requires i < |workers| && Holds(workers[i], workers[i].session)
      modifies this
      ensures View() == Next(old(View()), Fail(i))
    {
      if !workers[i].pc.Claimed? {
        lost := lost + [workers[i].session];
      }
      Go(i, Done(Raised));
    }

    /** The commit that makes the stamp visible and releases the row. */
    method CommitStamp(i: nat)
      requires i < |workers| && workers[i].pc.Stamped?
      modifies this
      ensures View() == Next(old(View()), Commit(i))
    {
      rows := rows[workers[i].session := true];
      Go(i, Done(Sent));
    }

    /** Whatever somebody does next; nothing when it cannot be done yet. */
    method Take(e: Event)
      modifies this
      ensures View() == Next(old(View()), e)
    {
      match e {
        case Claim(i) => if i < |workers| && workers[i].pc.Waiting? { ClaimRow(i); }
        case CallProvider(i, accepts) => if i < |workers| && workers[i].pc.Claimed? { SendMessage(i, accepts); }
        case Stamp(i) => if i < |workers| && workers[i].pc.Accepted? { StampRow(i); }
        case Commit(i) => if i < |workers| && workers[i].pc.Stamped? { CommitStamp(i); }
        case Fail(i) => if i < |workers| && Holds(workers[i], workers[i].session) { RollBack(i); }
        case DistributeElsewhere(session) =>
          var held := Locked(session);
          if session in rows && !held { rows := rows[session := true]; }
      }
    }

    /** Somebody else does something, which leaves worker i where it is. */
    method Another(e: Event, i: nat)
      requires i < |workers| && Foreign(e, i)
      modifies this
      ensures View() == Next(old(View()), e)
      ensures |workers| == |old(workers)| && workers[i] == old(workers[i])
    {
      ForeignNext(View(), e, i);
      Take(e);
    }

    /** The others go on while worker i is between two statements. */
    method Others(others: seq<Event>, i: nat)
      requires i < |workers| && forall k :: 0 <= k < |others| ==> Foreign(others[k], i)
      modifies this
      ensures View() == Exec(old(View()), others)
      ensures |workers| == |old(workers)| && workers[i] == old(workers[i])
    {
      for k := 0 to |others|
        invariant View() == Exec(old(View()), others[..k])
        invariant |workers| == |old(workers)| && workers[i] == old(workers[i])
      {
        ExecMore(old(View()), others[..k], others[k]);
        assert others[..k + 1] == others[..k] + [others[k]];
        Another(others[k], i);
      }
      assert others[..|others|] == others;
    }

    method Between(others: seq<Event>, i: nat, ghost w: World, ghost first: seq<Event>, ghost before: seq<Event>,
                   ghost own: seq<Event>)
      returns (ghost events: seq<Event>)
      requires i < |workers| && forall k :: 0 <= k < |others| ==> Foreign(others[k], i)
      requires Traced(w, View(), first, before, i, own)
      modifies this
      ensures Traced(w, View(), first, events, i, own)
      ensures |workers| == |old(workers)| && workers[i] == old(workers[i])
    {
      TraceForeign(w, View(), first, before, i, own, others);
      Others(others, i);
      events := before + others;
    }

    /** Worker i does what is next for it. */
    method Own(e: Event, i: nat, ghost w: World, ghost first: seq<Event>, ghost before: seq<Event>,
               ghost own: seq<Event>)
      returns (ghost events: seq<Event>)
      requires !Foreign(e, i) && i < |workers| && Ready(workers[i].pc, e)
      requires e.Claim? ==> !Held(View(), workers[i].session)
      requires Traced(w, View(), first, before, i, own)
      modifies this
      ensures Traced(w, View(), first, events, i, own + [e])
      ensures |workers| == |old(workers)|
      ensures workers[i] == Worker(old(workers[i].session), PcAfter(old(rows), old(workers[i].session), e))
    {
      TraceOwn(w, View(), first, before, i, own, e);
      OwnNext(View(), e, i);
      Take(e);
      events := before + [e];
    }

    /** send_guest_checkin_link_via_channex by worker i, while the others go on in the four gaps: waiting for
        the row lock, before the provider call, before the stamp and before the commit. It is a run of
        events, in which the worker does its own in order, and its answer is settled by the row as it is
        when the lock is taken: nothing the others do afterwards can change it. */
    method SendGuestCheckinLink(i: nat, accepts: bool, fault: Fault, gaps: seq<seq<Event>>)
      returns (answer: Option<Result>, ghost events: seq<Event>)
      requires i < |workers| && workers[i].pc.Waiting? && |gaps| == 4
      requires forall g, k :: 0 <= g < |gaps| && 0 <= k < |gaps[g]| ==> Foreign(gaps[g][k], i)
      modifies this
      ensures View() == Exec(old(View()), events)
      ensures gaps[0] <= events &&
              answer == AnswerAt(Exec(old(View()), gaps[0]), old(workers[i].session), accepts, fault)
      ensures OwnOf(events, i) == OwnEvents(i, answer, fault)
      ensures |workers| == |old(workers)|
      ensures workers[i] == Worker(old(workers[i].session), if answer.Some? then Done(answer.value) else Waiting)
    {
      ghost var w, first := View(), gaps[0];
      Others(gaps[0], i);
      events := first;
      assert Traced(w, View(), first, events, i, []) by {
        OwnOfForeign([], first, i);
        assert [] + first == first;
      }
      var held := Locked(workers[i].session);
      if held { return None, events; }
      events := Own(Claim(i), i, w, first, events, []);
      if workers[i].pc.Done? { return Some(workers[i].pc.result), events; }
      answer, events := CallAndStamp(i, accepts, fault, gaps, w, first, events);
    }

    /** The rest of the transaction, with the row locked: the provider call, the stamp and the commit. An
        exception on the way rolls it back. */
    method CallAndStamp(i: nat, accepts: bool, fault: Fault, gaps: seq<seq<Event>>,
                        ghost w: World, ghost first: seq<Event>, ghost before: seq<Event>)
      returns (answer: Option<Result>, ghost events: seq<Event>)
      requires i < |workers| && workers[i].pc.Claimed? && |gaps| == 4
      requires Traced(w, View(), first, before, i, [Claim(i)])
      requires forall g, k :: 0 <= g < |gaps| && 0 <= k < |gaps[g]| ==> Foreign(gaps[g][k], i)
      modifies this
      ensures Traced(w, View(), first, events, i, OwnEvents(i, answer, fault))
      ensures answer == Some(if fault == AtCall then Raised else if !accepts then Refused
                             else if fault != NoFault then Raised else Sent)
      ensures |workers| == |old(workers)| && workers[i] == Worker(old(workers[i].session), Done(answer.value))
    {
      ghost var own := [Claim(i)];
      events := Between(gaps[1], i, w, first, before, own);
      if fault == AtCall {
        events := Own(Fail(i), i, w, first, events, own);
        return Some(Raised), events;
      }
      events := Own(CallProvider(i, accepts), i, w, first, events, own);
      if !accepts { return Some(Refused), events; }
      answer, events := StampAndCommit(i, fault, gaps, w, first, events);
    }

    /** mark_checkin_link_distributed and the commit, after the provider has accepted. */
    method StampAndCommit(i: nat, fault: Fault, gaps: seq<seq<Event>>,
                          ghost w: World, ghost first: seq<Event>, ghost before: seq<Event>)
      returns (answer: Option<Result>, ghost events: seq<Event>)
      requires i < |workers| && workers[i].pc.Accepted? && |gaps| == 4 && fault != AtCall
      requires Traced(w, View(), first, before, i, [Claim(i), CallProvider(i, true)])
      requires forall g, k :: 0 <= g < |gaps| && 0 <= k < |gaps[g]| ==> Foreign(gaps[g][k], i)
      modifies this
      ensures Traced(w, View(), first, events, i, OwnEvents(i, answer, fault))
      ensures answer == Some(if fault != NoFault then Raised else Sent)
      ensures |workers| == |old(workers)| && workers[i] == Worker(old(workers[i].session), Done(answer.value))
    {
      ghost var own := [Claim(i), CallProvider(i, true)];
      events := Between(gaps[2], i, w, first, before, own);
      if fault == AtStamp {
        events := Own(Fail(i), i, w, first, events, own);
        return Some(Raised), events;
      }
      events := Own(Stamp(i), i, w, first, events, own);
      own := own + [Stamp(i)];
      events := Between(gaps[3], i, w, first, events, own);
      if fault == AtCommit {
        events := Own(Fail(i), i, w, first, events, own);
        return Some(Raised), events;
      }
      events := Own(Commit(i), i, w, first, events, own);
      return Some(Sent), events;
    }
  }
}
