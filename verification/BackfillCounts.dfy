/** What the numbers in a backfill report count, in every mode. */
module BackfillCounts {
  import opened Wrappers
  import opened CanonicalModel
  import opened CanonicalStore
  import opened CanonicalBackfill
  import opened BackfillPrediction
  import opened BackfillRows
  import opened BackfillValidation

  /** The counted columns of a report, and beside them how many messages there are beyond those counted as
      created, and how many sources on messages from number `base` on. */
  datatype Counter = VisibleGroups | GroupSources | WouldMessages | WouldSources | NewMessages | NewOrHealed
                   | OtherMessages | OtherSources(base: nat)

  /** Sources on messages from number `base` on. */
  function CountFrom(sources: seq<Source>, base: nat): nat {
    if sources == [] then 0
    else CountFrom(sources[..|sources| - 1], base) + if sources[|sources| - 1].message >= base then 1 else 0
  }

  function Value(c: Counter, p: Progress): int {
    match c
    case VisibleGroups => p.report.visibleInGroups
    case GroupSources => p.report.sourcesInGroups
    case WouldMessages => p.report.wouldCreateMessages
    case WouldSources => p.report.wouldCreateSources
    case NewMessages => p.report.createdMessages
    case NewOrHealed => p.report.createdSources + p.report.healedSources
    case OtherMessages => |p.store.messages| - p.report.createdMessages
    case OtherSources(base) => CountFrom(p.store.sources, base) - p.report.createdSources
  }

  /** Some member of the group has a source. */
  ghost predicate HasMessage(s: Store, w: Work, k: int) {
    exists m: nat :: FoundIn(s, w, k, m)
  }

  /** What an open group adds to a counter. */
  ghost function Share(mode: Mode, s: Store, w: Work, c: Counter, k: nat): nat
    requires k < |w.groups|
  {
    var rows, lacking := |w.groups[k].members|, Unfound(s, w.reservation.tenant, w.groups[k].members);
    match c
    case VisibleGroups => if mode == Apply || (mode == ValidateOnly && HasMessage(s, w, k)) then 1 else 0
    case GroupSources => if mode == Apply || (mode == ValidateOnly && HasMessage(s, w, k)) then rows else 0
    case WouldMessages => if mode == DryRun && !HasMessage(s, w, k) then 1 else 0
    case WouldSources => if mode == DryRun then lacking else 0
    case NewMessages => if mode == Apply && !HasMessage(s, w, k) then 1 else 0
    case NewOrHealed => if mode == Apply then lacking else 0
    case OtherMessages => 0
    case OtherSources(_) => 0
  }

  function Sum(amount: int -> nat, n: nat): nat {
    if n == 0 then 0 else Sum(amount, n - 1) + amount(n - 1)
  }

  /** What each group adds to a counter; only the open ones do. */
  ghost function ShareLaw(mode: Mode, s: Store, w: Work, c: Counter): int -> nat
    requires Linked(s)
  {
    (k: int) => if OpenGroup(s, w, k) then Share(mode, s, w, c, k) else 0
  }

  // ---------------------------------------------------------------- one group

  lemma CountMore(sources: seq<Source>, x: Source, base: nat)
    ensures CountFrom(sources + [x], base) == CountFrom(sources, base) + if x.message >= base then 1 else 0
  {
    assert (sources + [x])[..|sources|] == sources;
  }

  lemma {:induction false} FillAddsSources(s0: Store, s: Store, tenant: nat, m: nat, members: seq<Raw>, base: nat)
    requires m < |s.messages|
    ensures var f := FillMembers(s0, s, tenant, m, members);
            CountFrom(f.store.sources, base) == CountFrom(s.sources, base) + if m >= base then f.inserted else 0
  {
    if members != [] {
      var n := |members| - 1;
      FillAddsSources(s0, s, tenant, m, members[..n], base);
      var f := FillMembers(s0, s, tenant, m, members[..n]);
      CountMore(f.store.sources, NewSource(tenant, m, members[n]), base);
    }
  }

  lemma ApplyAdds(now: int, s0: Store, s: Store, reservation: Reservation, g: Group, visible: Option<nat>, base: nat)
    requires (visible.Some? ==> visible.value < base) && base <= |s.messages|
    ensures var a := ApplyGroup(now, s0, s, reservation, g, visible);
            CountFrom(a.store.sources, base) == CountFrom(s.sources, base) + a.createdSources &&
            |a.store.messages| == |s.messages| + a.createdMessages
  {
    var l := LockConversation(s, reservation);
    match visible
    case Some(m) =>
      FillAddsSources(s0, l.store, reservation.tenant, m, g.members, base);
    case None =>
      var born := InsertMessage(l.store, GroupRow(now, reservation.tenant, l.conversation, g));
      FillAddsSources(s0, born, reservation.tenant, |s.messages|, g.members, base);
  }

  lemma InspectAdds(mode: Mode, s: Store, w: Work, c: Counter, k: nat, p: Progress)
    requires Linked(s) && OpenGroup(s, w, k) && mode != Apply
    ensures var todo := Todo(k, w.groups[k], Resolutions(s, w)[k]);
            Value(c, p.(report := Inspect(mode, w.reservation, todo, p.report))) ==
            Value(c, p) + Share(mode, s, w, c, k)
  {
    OpenGroupTells(s, w, k);
    UnblockedIff(s, w.reservation, w.groups[k]);
    UnblockedGroup(s, w.reservation, w.groups[k]);
  }

  lemma ApplyAddsShare(now: int, s: Store, w: Work, c: Counter, k: nat, p: Progress)
    requires Linked(s) && OpenGroup(s, w, k) && |s.messages| <= |p.store.messages|
    requires c.OtherSources? ==> c.base == |s.messages|
    ensures var r := Resolutions(s, w)[k];
            (r.visible.Some? ==> r.visible.value < |s.messages|) &&
            var a := ApplyGroup(now, s, p.store, w.reservation, w.groups[k], r.visible);
            Value(c, Progress(a.store, CountApplied(w.groups[k], a, p.report))) ==
            Value(c, p) + Share(Apply, s, w, c, k)
  {
    var r := Resolutions(s, w)[k];
    OpenGroupTells(s, w, k);
    ApplyCounts(now, s, p.store, w.reservation, w.groups[k], r.visible);
    ApplyAdds(now, s, p.store, w.reservation, w.groups[k], r.visible, |s.messages|);
  }

  /** Handling an open group adds its share to a counter. */
  lemma HandleAdds(mode: Mode, now: int, s: Store, w: Work, c: Counter, k: nat, p: Progress)
    requires Linked(s) && OpenGroup(s, w, k) && |s.messages| <= |p.store.messages|
    requires c.OtherSources? ==> c.base == |s.messages|
    ensures var todo := Todo(k, w.groups[k], Resolutions(s, w)[k]);
            (todo.resolution.visible.Some? ==> todo.resolution.visible.value < |p.store.messages|) &&
            Value(c, Handle(mode, now, s, w.reservation, p, todo)) == Value(c, p) + Share(mode, s, w, c, k)
  {
    if mode == Apply {
      ApplyAddsShare(now, s, w, c, k, p);
    } else {
      InspectAdds(mode, s, w, c, k, p);
    }
  }

  // ---------------------------------------------------------------- one reservation

  ghost function ValueLaw(c: Counter): Progress -> int {
    (p: Progress) => Value(c, p)
  }

  /** Going on with group j, if it is not blocked, adds the amount to the value. */
  ghost predicate AddsAt(f: Handler, bound: nat, w: Work, rs: seq<Resolution>, value: Progress -> int,
                         amount: int -> nat, j: nat, p: Progress)
    requires j < |w.groups| == |rs|
  {
    bound <= |p.store.messages| ==>
      var p' := if Blocked(rs, j) then p else f(p, Todo(j, w.groups[j], rs[j]));
      bound <= |p'.store.messages| && value(p') == value(p) + amount(j)
  }

  ghost predicate AddsUp(f: Handler, bound: nat, w: Work, rs: seq<Resolution>, value: Progress -> int,
                       amount: int -> nat)
    requires |w.groups| == |rs|
  {
    forall j: nat, p {:trigger AddsAt(f, bound, w, rs, value, amount, j, p)} ::
      j < |rs| ==> AddsAt(f, bound, w, rs, value, amount, j, p)
  }

  lemma {:induction false} LoopAdds(f: Handler, bound: nat, w: Work, rs: seq<Resolution>, value: Progress -> int,
                                    amount: int -> nat, start: Progress, k: nat)
    requires k <= |w.groups| == |rs| && AddsUp(f, bound, w, rs, value, amount) && bound <= |start.store.messages|
    ensures var p := AfterGroups(f, start, w, rs, k);
            bound <= |p.store.messages| && value(p) == value(start) + Sum(amount, k)
  {
    if k > 0 {
      var j := k - 1;
      LoopAdds(f, bound, w, rs, value, amount, start, j);
      assert AddsAt(f, bound, w, rs, value, amount, j, AfterGroups(f, start, w, rs, j));
    }
  }

  lemma HandlingAdds(f: Handler, mode: Mode, now: int, s: Store, w: Work, c: Counter)
    requires Linked(s) && IsHandle(f, mode, now, s, w.reservation)
    requires c.OtherSources? ==> c.base == |s.messages|
    ensures AddsUp(f, |s.messages|, w, Resolutions(s, w), ValueLaw(c), ShareLaw(mode, s, w, c))
  {
    var rs, value, amount := Resolutions(s, w), ValueLaw(c), ShareLaw(mode, s, w, c);
    forall j: nat, p {:trigger AddsAt(f, |s.messages|, w, rs, value, amount, j, p)} | j < |rs|
      ensures AddsAt(f, |s.messages|, w, rs, value, amount, j, p)
    {
      OpenIffUnblocked(s, w, j);
      if OpenGroup(s, w, j) && |s.messages| <= |p.store.messages| {
        HandleAdds(mode, now, s, w, c, j, p);
        assert HandlesAt(f, mode, now, s, w.reservation, p, Todo(j, w.groups[j], rs[j]));
      }
    }
  }

  lemma PhaseOneCounts(w: Work, rs: seq<Resolution>, s: Store, c: Counter, report: Report)
    requires |rs| == |w.groups|
    ensures Value(c, Progress(s, AfterPhaseOne(w, rs, |s.messages|, report))) == Value(c, Progress(s, report))
  {
  }

  /** Processing a reservation adds to every counter what its open groups add. */
  lemma ProcessCounts(mode: Mode, now: int, s: Store, w: Work, report: Report, c: Counter)
    requires Linked(s) && (c.OtherSources? ==> c.base == |s.messages|)
    ensures var p := ProcessReservation(mode, now, s, w, report);
            Value(c, p) == Value(c, Progress(s, report)) + Sum(ShareLaw(mode, s, w, c), |w.groups|)
  {
    var rs := Resolutions(s, w);
    var start := AfterPhaseOne(w, rs, |s.messages|, report);
    var f := HandlingIsLoop(mode, now, s, w, start);
    HandlingAdds(f, mode, now, s, w, c);
    LoopAdds(f, |s.messages|, w, rs, ValueLaw(c), ShareLaw(mode, s, w, c), Progress(s, start), |rs|);
    PhaseOneCounts(w, rs, s, c, report);
  }

  // ---------------------------------------------------------------- the whole scan

  lemma {:induction false} SumOfZero(amount: int -> nat, n: nat)
    requires forall k :: amount(k) == 0
    ensures Sum(amount, n) == 0
  {
    if n > 0 { SumOfZero(amount, n - 1); }
  }

  /** Between the reports and stores, created messages and sources on new messages are those counted so. */
  ghost predicate CreatedCounted(s: Store, report: Report, p: Progress) {
    |p.store.messages| - |s.messages| == p.report.createdMessages - report.createdMessages &&
    CountFrom(p.store.sources, |s.messages|) == p.report.createdSources - report.createdSources
  }

  lemma CountedWhen(s: Store, report: Report, p: Progress)
    requires Linked(s)
    requires Value(OtherMessages, p) == Value(OtherMessages, Progress(s, report))
    requires Value(OtherSources(|s.messages|), p) == Value(OtherSources(|s.messages|), Progress(s, report))
    ensures CreatedCounted(s, report, p)
  {
    NoSourceFrom(s.sources, |s.messages|);
  }

  /** The messages that a step inserts, and the sources on them, are those it counts as created. */
  lemma CreatedAreCounted(mode: Mode, now: int, s: Store, w: Work, report: Report)
    requires Linked(s)
    ensures CreatedCounted(s, report, ProcessReservation(mode, now, s, w, report))
  {
    NothingElse(mode, now, s, w, report, OtherMessages);
    NothingElse(mode, now, s, w, report, OtherSources(|s.messages|));
    CountedWhen(s, report, ProcessReservation(mode, now, s, w, report));
  }

  lemma NothingElse(mode: Mode, now: int, s: Store, w: Work, report: Report, c: Counter)
    requires Linked(s) && (c == OtherMessages || c == OtherSources(|s.messages|))
    ensures Value(c, ProcessReservation(mode, now, s, w, report)) == Value(c, Progress(s, report))
  {
    ProcessCounts(mode, now, s, w, report, c);
    NoShare(mode, s, w, c);
  }

  lemma NoShare(mode: Mode, s: Store, w: Work, c: Counter)
    requires Linked(s) && (c.OtherMessages? || c.OtherSources?)
    ensures Sum(ShareLaw(mode, s, w, c), |w.groups|) == 0
  {
    SumOfZero(ShareLaw(mode, s, w, c), |w.groups|);
  }

  lemma {:induction false} NoSourceFrom(sources: seq<Source>, base: nat)
    requires forall i :: 0 <= i < |sources| ==> sources[i].message < base
    ensures CountFrom(sources, base) == 0
  {
    if sources != [] { NoSourceFrom(sources[..|sources| - 1], base); }
  }

  function GroupCount(works: seq<Work>): nat {
    if works == [] then 0 else GroupCount(works[..|works| - 1]) + |works[|works| - 1].groups|
  }

  lemma ProcessScans(mode: Mode, now: int, s: Store, w: Work, report: Report)
    requires Linked(s)
    ensures var r := ProcessReservation(mode, now, s, w, report).report;
            r.scanned == report.scanned + 1 && r.groups == report.groups + |w.groups|
  {
    var start := AfterPhaseOne(w, Resolutions(s, w), |s.messages|, report);
    UnblockedAreOpen(s, w);
    HandlingKeepsScanned(mode, now, s, w.reservation, Unblocked(w, Resolutions(s, w), |w.groups|), start);
  }

  lemma {:induction false} HandlingKeepsScanned(mode: Mode, now: int, s0: Store, reservation: Reservation,
                                                todos: seq<Todo>, report: Report)
    requires Fit(s0, todos)
    ensures var r := HandleAll(mode, now, s0, reservation, todos, report).report;
            r.scanned == report.scanned && r.groups == report.groups
  {
    if todos != [] { HandlingKeepsScanned(mode, now, s0, reservation, todos[..|todos| - 1], report); }
  }

  /** In every mode a scan counts each reservation and each of its groups once, and as created just the
      messages by which the table has grown. */
  lemma {:induction false} ScanCounts(mode: Mode, now: int, s: Store, works: seq<Work>)
    requires Linked(s)
    ensures var p := Scan(mode, now, s, works);
            p.report.scanned == |works| && p.report.groups == GroupCount(works) &&
            |p.store.messages| == |s.messages| + p.report.createdMessages
  {
    if works != [] {
      var n := |works| - 1;
      ScanCounts(mode, now, s, works[..n]);
      var before := Scan(mode, now, s, works[..n]);
      ProcessScans(mode, now, before.store, works[n], before.report);
      CreatedAreCounted(mode, now, before.store, works[n], before.report);
    }
  }
}
