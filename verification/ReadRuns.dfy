/** What a tenant's status row says of the commands that were run: its cutoff of the first apply run, its
    completion of the last validation that was clean, its read flag of the last command that switched it. */
module ReadRuns {
  import opened Wrappers
  import opened CanonicalModel
  import opened CanonicalStore
  import opened CanonicalBackfill
  import opened BackfillPrediction
  import opened BackfillValidation
  import opened CanonicalTimeline
  import opened CanonicalRead
  import opened ParityReport

  ghost predicate CommandsOk(cs: seq<Command>) {
    forall k :: 0 <= k < |cs| ==> CommandOk(cs[k])
  }

  // ---------------------------------------------------------------- the cutoff

  /** All four columns of the cutoff are set. */
  predicate CutoffStored(row: Option<StatusRow>) {
    row.Some? && row.value.channex.Some? && row.value.whatsapp.Some? && row.value.inbound.Some? &&
    row.value.outbound.Some?
  }

  /** The row's cutoff is this one, column by column. */
  predicate CutoffIs(row: Option<StatusRow>, c: Cutoff) {
    row.Some? && row.value.cutoffAt == Some(c.at) && row.value.channex == Some(c.channex) &&
    row.value.whatsapp == Some(c.whatsapp) && row.value.inbound == Some(c.inbound) &&
    row.value.outbound == Some(c.outbound)
  }

  predicate IsApply(c: Command) {
    c.RunBackfill? && c.mode == Apply
  }

  lemma StepKeepsCutoff(tenant: nat, st: State, c: Command, cutoff: Cutoff)
    requires Linked(st.store) && CutoffIs(st.row, cutoff)
    ensures CutoffIs(Step(tenant, st, c).row, cutoff)
  {
  }

  lemma StepStoresCutoff(tenant: nat, st: State, c: Command)
    requires Linked(st.store) && !CutoffStored(st.row)
    ensures if IsApply(c) then CutoffIs(Step(tenant, st, c).row, c.computed) else !CutoffStored(Step(tenant, st, c).row)
  {
  }

  // ---------------------------------------------------------------- the states of a run

  /** The state before command number k. */
  ghost function At(tenant: nat, st: State, cs: seq<Command>, k: nat): (at: State)
    requires Linked(st.store) && CommandsOk(cs) && k <= |cs|
    ensures Linked(at.store)
  {
    StepAll(tenant, st, cs[..k])
  }

  lemma AtNext(tenant: nat, st: State, cs: seq<Command>, k: nat) returns (at: State)
    requires Linked(st.store) && CommandsOk(cs) && k < |cs|
    ensures at == At(tenant, st, cs, k) && Linked(at.store) && At(tenant, st, cs, k + 1) == Step(tenant, at, cs[k])
  {
    PrefixOfPrefix(cs, k + 1, k);
    at := LastStep(tenant, st, cs[..k + 1]);
  }

  lemma AtEnds(tenant: nat, st: State, cs: seq<Command>)
    requires Linked(st.store) && CommandsOk(cs)
    ensures At(tenant, st, cs, 0) == st && At(tenant, st, cs, |cs|) == StepAll(tenant, st, cs)
  {
    assert cs[..|cs|] == cs && cs[..0] == [];
  }

  ghost predicate SomeApply(cs: seq<Command>, n: nat) {
    exists k :: 0 <= k < n && k < |cs| && IsApply(cs[k])
  }

  lemma SomeApplyNext(cs: seq<Command>, k: nat)
    requires k < |cs|
    ensures SomeApply(cs, k + 1) <==> SomeApply(cs, k) || IsApply(cs[k])
  {
  }

  lemma {:induction false} StoredSince(tenant: nat, st: State, cs: seq<Command>, n: nat)
    requires Linked(st.store) && CommandsOk(cs) && !CutoffStored(st.row) && n <= |cs|
    ensures CutoffStored(At(tenant, st, cs, n).row) <==> SomeApply(cs, n)
  {
    if n == 0 {
      AtEnds(tenant, st, cs);
    } else {
      var k := n - 1;
      StoredSince(tenant, st, cs, k);
      StoredNext(tenant, st, cs, k);
      SomeApplyNext(cs, k);
      assert k + 1 == n;
    }
  }

  /** From a row without a complete cutoff: it has one at the end exactly when some apply run was among the
      commands, and then it is the one that was computed for the first of them. */
  lemma CutoffIsFirst(tenant: nat, st: State, cs: seq<Command>)
    requires Linked(st.store) && CommandsOk(cs) && !CutoffStored(st.row)
    ensures CutoffStored(StepAll(tenant, st, cs).row) <==> exists k :: 0 <= k < |cs| && IsApply(cs[k])
    ensures forall k :: 0 <= k < |cs| && IsApply(cs[k]) && (forall j :: 0 <= j < k ==> !IsApply(cs[j])) ==>
              CutoffIs(StepAll(tenant, st, cs).row, cs[k].computed)
  {
    AtEnds(tenant, st, cs);
    StoredSince(tenant, st, cs, |cs|);
    forall k | 0 <= k < |cs| && IsApply(cs[k]) && (forall j :: 0 <= j < k ==> !IsApply(cs[j]))
      ensures CutoffIs(StepAll(tenant, st, cs).row, cs[k].computed)
    {
      StoredSince(tenant, st, cs, k);
      StoredBy(tenant, st, cs, k);
    }
  }

  lemma StoredNext(tenant: nat, st: State, cs: seq<Command>, k: nat)
    requires Linked(st.store) && CommandsOk(cs) && k < |cs|
    ensures CutoffStored(At(tenant, st, cs, k + 1).row) <==> CutoffStored(At(tenant, st, cs, k).row) || IsApply(cs[k])
  {
    var at := AtNext(tenant, st, cs, k);
    StepIsStored(tenant, at, cs[k]);
  }

  lemma StepIsStored(tenant: nat, st: State, c: Command)
    requires Linked(st.store)
    ensures CutoffStored(Step(tenant, st, c).row) <==> CutoffStored(st.row) || IsApply(c)
  {
  }

  lemma KeptNext(tenant: nat, st: State, cs: seq<Command>, c: Cutoff, k: nat)
    requires Linked(st.store) && CommandsOk(cs) && k < |cs| && CutoffIs(At(tenant, st, cs, k).row, c)
    ensures CutoffIs(At(tenant, st, cs, k + 1).row, c)
  {
    var at := AtNext(tenant, st, cs, k);
    StepKeepsCutoff(tenant, at, cs[k], c);
  }

  /** The cutoff that command k stores is there at the end. */
  lemma StoredBy(tenant: nat, st: State, cs: seq<Command>, k: nat)
    requires Linked(st.store) && CommandsOk(cs) && k < |cs| && IsApply(cs[k])
    requires !CutoffStored(At(tenant, st, cs, k).row)
    ensures CutoffIs(StepAll(tenant, st, cs).row, cs[k].computed)
  {
    AtEnds(tenant, st, cs);
    var at := AtNext(tenant, st, cs, k);
    StepStoresCutoff(tenant, at, cs[k]);
    StaysStored(tenant, st, cs, cs[k].computed, k + 1, |cs|);
  }

  lemma {:induction false} StaysStored(tenant: nat, st: State, cs: seq<Command>, c: Cutoff, k: nat, n: nat)
    requires Linked(st.store) && CommandsOk(cs) && k <= n <= |cs| && CutoffIs(At(tenant, st, cs, k).row, c)
    ensures CutoffIs(At(tenant, st, cs, n).row, c)
  {
    if k < n {
      var j := n - 1;
      StaysStored(tenant, st, cs, c, k, j);
      KeptNext(tenant, st, cs, c, j);
      assert j + 1 == n;
    }
  }

  // ---------------------------------------------------------------- a column that commands set

  /** A column that the steps marked set has at the end what the last of them set; -1 stands for none. */
  lemma {:induction false} LastSets(col: nat -> Option<int>, marked: nat -> bool, val: nat -> Option<int>, n: nat)
    returns (k: int)
    requires forall j :: 0 <= j < n ==> col(j + 1) == if marked(j) then val(j) else col(j)
    ensures -1 <= k < n && (forall j :: k < j < n ==> !marked(j))
    ensures if k >= 0 then marked(k) && col(n) == val(k) else col(n) == col(0)
  {
    k := -1;
    if n > 0 {
      k := LastSets(col, marked, val, n - 1);
      if marked(n - 1) { k := n - 1; }
    }
  }

  // ---------------------------------------------------------------- completion

  /** At this state a validation of the groups is clean, so every one of their rows has its source. */
  ghost predicate ValidAt(at: State, works: seq<Work>)
    requires Linked(at.store)
  {
    forall i :: 0 <= i < |works| ==> CleanWork(at.store, works[i])
  }

  /** Command number k marks the tenant complete: there is a cutoff, and nothing is wrong with the groups. */
  ghost predicate Completes(tenant: nat, st: State, cs: seq<Command>, k: nat)
    requires Linked(st.store) && CommandsOk(cs)
  {
    k < |cs| && cs[k].MarkComplete? && CutoffStored(At(tenant, st, cs, k).row) &&
    ValidAt(At(tenant, st, cs, k), cs[k].works)
  }

  function CompletedAt(row: Option<StatusRow>): Option<int> {
    if row.Some? then row.value.completedAt else None
  }

  lemma StepCompletes(tenant: nat, st: State, c: Command)
    requires Linked(st.store)
    ensures CompletedAt(Step(tenant, st, c).row) ==
            if c.MarkComplete? && CutoffStored(st.row) && ValidAt(st, c.works) then Some(c.now)
            else CompletedAt(st.row)
  {
    if c.MarkComplete? { ValidationIsCleanIff(c.now, st.store, c.works); }
  }

  ghost function CompletionLaw(tenant: nat, st: State, cs: seq<Command>): nat -> Option<int>
    requires Linked(st.store) && CommandsOk(cs)
  {
    (k: nat) => if k <= |cs| then CompletedAt(At(tenant, st, cs, k).row) else None
  }

  ghost function CompletesLaw(tenant: nat, st: State, cs: seq<Command>): nat -> bool
    requires Linked(st.store) && CommandsOk(cs)
  {
    (k: nat) => Completes(tenant, st, cs, k)
  }

  /** The clock of a command that sets a time. */
  ghost function ClockLaw(cs: seq<Command>): nat -> Option<int> {
    (k: nat) => if k < |cs| && cs[k].MarkComplete? then Some(cs[k].now)
                else if k < |cs| && cs[k].Enable? then Some(cs[k].now) else None
  }

  lemma CompletesNext(tenant: nat, st: State, cs: seq<Command>, k: nat)
    requires Linked(st.store) && CommandsOk(cs) && k < |cs|
    ensures var col := CompletionLaw(tenant, st, cs);
            col(k + 1) == if CompletesLaw(tenant, st, cs)(k) then ClockLaw(cs)(k) else col(k)
  {
    var at := AtNext(tenant, st, cs, k);
    StepCompletes(tenant, at, cs[k]);
  }

  /** The tenant is complete at the end since the last command that completed it: one at which there was a cutoff
      and nothing was wrong, no row of any group without a source. Number -1 stands for none. */
  lemma CompletedByLast(tenant: nat, st: State, cs: seq<Command>) returns (k: int)
    requires Linked(st.store) && CommandsOk(cs)
    ensures -1 <= k < |cs| && forall j :: k < j < |cs| ==> !Completes(tenant, st, cs, j)
    ensures if k >= 0
            then Completes(tenant, st, cs, k) && CompletedAt(StepAll(tenant, st, cs).row) == Some(cs[k].now)
            else CompletedAt(StepAll(tenant, st, cs).row) == CompletedAt(st.row)
  {
    var col, marked, val := CompletionLaw(tenant, st, cs), CompletesLaw(tenant, st, cs), ClockLaw(cs);
    forall j | 0 <= j < |cs| ensures col(j + 1) == if marked(j) then val(j) else col(j) {
      CompletesNext(tenant, st, cs, j);
    }
    k := LastSets(col, marked, val, |cs|);
    CompletionIs(tenant, st, cs);
    forall j | k < j < |cs| ensures !Completes(tenant, st, cs, j) { assert !marked(j); }
  }

  lemma CompletionIs(tenant: nat, st: State, cs: seq<Command>)
    requires Linked(st.store) && CommandsOk(cs)
    ensures CompletionLaw(tenant, st, cs)(0) == CompletedAt(st.row)
    ensures CompletionLaw(tenant, st, cs)(|cs|) == CompletedAt(StepAll(tenant, st, cs).row)
  {
    AtEnds(tenant, st, cs);
  }

  // ---------------------------------------------------------------- the read flag

  /** Every visible message of the tenant is some source's. */
  ghost predicate VisibleAreSourced(s: Store, tenant: nat) {
    forall m: nat :: m < |s.messages| && s.messages[m].tenant == tenant && s.messages[m].visible ==>
      exists i :: 0 <= i < |s.sources| && s.sources[i].message == m
  }

  /** Every row of the groups has a source in the tenant. */
  ghost predicate RowsAreSourced(s: Store, tenant: nat, groups: seq<Work>) {
    forall a, k, raw :: 0 <= a < |groups| && 0 <= k < |groups[a].groups| && raw in groups[a].groups[k].members ==>
      HasRow(s, tenant, raw)
  }

  ghost predicate HasRow(s: Store, tenant: nat, raw: Raw) {
    exists i :: 0 <= i < |s.sources| && s.sources[i].tenant == tenant && s.sources[i].raw.key == raw.key
  }

  /** What enabling asks for. */
  ghost predicate MayEnable(tenant: nat, at: State, q: Query)
    requires Linked(at.store)
  {
    CompletedAt(at.row).Some? && CutoffStored(at.row) && ValidAt(at, q.works) &&
    VisibleAreSourced(at.store, tenant) && RowsAreSourced(at.store, tenant, q.groups) && AllAgree(at.store, q)
  }

  lemma RowsIff(s: Store, tenant: nat, groups: seq<Work>)
    ensures EveryMemberHasSource(s, tenant, groups) <==> RowsAreSourced(s, tenant, groups)
  {
    if EveryMemberHasSource(s, tenant, groups) {
      forall a, k, raw | 0 <= a < |groups| && 0 <= k < |groups[a].groups| && raw in groups[a].groups[k].members
        ensures HasRow(s, tenant, raw)
      {
        assert WorkHasSources(s, tenant, groups[a]) && MemberOf(groups[a], raw);
      }
    }
    if RowsAreSourced(s, tenant, groups) {
      forall a, raw | 0 <= a < |groups| && MemberOf(groups[a], raw) ensures HasOwnSource(s, tenant, raw.key) {
        assert HasRow(s, tenant, raw);
      }
    }
  }

  lemma ReadyIff(tenant: nat, at: State, now: int, q: Query)
    requires Linked(at.store)
    ensures Ready(at.row, at.store, tenant, now, q) && Parity(at.store, q) <==> MayEnable(tenant, at, q)
  {
    ValidationIsCleanIff(now, at.store, q.works);
    ParityIffAgree(at.store, q);
    RowsIff(at.store, tenant, q.groups);
    assert EveryVisibleHasSource(at.store, tenant) <==> VisibleAreSourced(at.store, tenant);
  }

  lemma ReportedIn(found: seq<Anomaly>, b: Blocker)
    ensures b in AllReported(found) <==> b.Reported? && b.anomaly in found
  {
    if b.Reported? && b.anomaly in found {
      var i :| 0 <= i < |found| && found[i] == b.anomaly;
      assert AllReported(found)[i] == b;
    }
  }

  /** Live validation objects that the backfill is not complete, that there is no cutoff, to each anomaly that the
      validation scan reports, which needs a cutoff, and to the two counts unless they are zero. */
  lemma BlockerIff(row: Option<StatusRow>, found: seq<Anomaly>, hidden: nat, missing: nat, b: Blocker)
    ensures b in BlockersFrom(row, found, hidden, missing) <==>
            match b
            case BackfillIncomplete => CompletedAt(row).None?
            case CutoffMissing => !CutoffStored(row)
            case Reported(anomaly) => CutoffStored(row) && anomaly in found
            case VisibleWithoutSource(count) => count == hidden > 0
            case RawWithoutSource(count) => count == missing > 0
  {
    ReportedIn(found, b);
  }

  /** The messages below n that are the tenant's, visible and no source's. */
  ghost function Hidden(s: Store, tenant: nat, n: nat): set<nat>
    requires n <= |s.messages|
  {
    set m: nat | m < n && s.messages[m].tenant == tenant && s.messages[m].visible &&
                 forall i :: 0 <= i < |s.sources| ==> s.sources[i].message != m
  }

  /** The first count is how many they are. */
  lemma {:induction false} HiddenAreCounted(s: Store, tenant: nat, n: nat)
    requires n <= |s.messages|
    ensures UnsourcedBelow(s, tenant, n) == |Hidden(s, tenant, n)|
  {
    if n > 0 {
      HiddenAreCounted(s, tenant, n - 1);
      var fewer := Hidden(s, tenant, n - 1);
      assert Hidden(s, tenant, n) == if Unsourced(s, tenant, n - 1) then fewer + {n - 1} else fewer;
    }
  }

  function FlagAt(row: Option<StatusRow>): Option<int> {
    if row.Some? then row.value.readAt else None
  }

  /** Command number k switches the flag: a disable, or an enable that is given all it asks for. */
  ghost predicate Switches(tenant: nat, st: State, cs: seq<Command>, k: nat)
    requires Linked(st.store) && CommandsOk(cs)
  {
    k < |cs| && (cs[k].Disable? || (cs[k].Enable? && MayEnable(tenant, At(tenant, st, cs, k), cs[k].query)))
  }

  lemma StepSwitches(tenant: nat, st: State, c: Command)
    requires Linked(st.store)
    ensures FlagAt(Step(tenant, st, c).row) ==
            if c.Disable? then None
            else if c.Enable? && MayEnable(tenant, st, c.query) then Some(c.now) else FlagAt(st.row)
  {
    if c.Enable? { ReadyIff(tenant, st, c.now, c.query); }
  }

  ghost function FlagLaw(tenant: nat, st: State, cs: seq<Command>): nat -> Option<int>
    requires Linked(st.store) && CommandsOk(cs)
  {
    (k: nat) => if k <= |cs| then FlagAt(At(tenant, st, cs, k).row) else None
  }

  ghost function SwitchesLaw(tenant: nat, st: State, cs: seq<Command>): nat -> bool
    requires Linked(st.store) && CommandsOk(cs)
  {
    (k: nat) => Switches(tenant, st, cs, k)
  }

  lemma SwitchesNext(tenant: nat, st: State, cs: seq<Command>, k: nat)
    requires Linked(st.store) && CommandsOk(cs) && k < |cs|
    ensures var col := FlagLaw(tenant, st, cs);
            col(k + 1) == if SwitchesLaw(tenant, st, cs)(k) then ClockLaw(cs)(k) else col(k)
  {
    var at := AtNext(tenant, st, cs, k);
    StepSwitches(tenant, at, cs[k]);
  }

  lemma FlagIs(tenant: nat, st: State, cs: seq<Command>)
    requires Linked(st.store) && CommandsOk(cs)
    ensures FlagLaw(tenant, st, cs)(0) == FlagAt(st.row)
    ensures FlagLaw(tenant, st, cs)(|cs|) == FlagAt(StepAll(tenant, st, cs).row)
  {
    AtEnds(tenant, st, cs);
  }

  /** The read flag at the end is what the last command that switched it says: off after a disable, else on since
      an enable before which everything asked for was there. Number -1 stands for none. */
  lemma FlagByLast(tenant: nat, st: State, cs: seq<Command>) returns (k: int)
    requires Linked(st.store) && CommandsOk(cs)
    ensures -1 <= k < |cs| && forall j :: k < j < |cs| ==> !Switches(tenant, st, cs, j)
    ensures var flag := FlagAt(StepAll(tenant, st, cs).row);
            if k < 0 then flag == FlagAt(st.row)
            else Switches(tenant, st, cs, k) && flag == if cs[k].Enable? then Some(cs[k].now) else None
  {
    var col, marked, val := FlagLaw(tenant, st, cs), SwitchesLaw(tenant, st, cs), ClockLaw(cs);
    forall j | 0 <= j < |cs| ensures col(j + 1) == if marked(j) then val(j) else col(j) {
      SwitchesNext(tenant, st, cs, j);
    }
    k := LastSets(col, marked, val, |cs|);
    FlagIs(tenant, st, cs);
    forall j | k < j < |cs| ensures !Switches(tenant, st, cs, j) { assert !marked(j); }
  }
}
