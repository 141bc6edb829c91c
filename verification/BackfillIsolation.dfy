/** A backfill step stays inside the conversation of its own reservation. */
module BackfillIsolation {
  import opened Wrappers
  import opened CanonicalModel
  import opened CanonicalStore
  import opened CanonicalStoreLaws
  import opened CanonicalBackfill
  import opened BackfillFrames
  import opened BackfillPrediction
  import opened BackfillConvergence

  lemma LeavesTrans(a: Store, b: Store, c: Store, reservation: Reservation)
    requires Linked(a) && Linked(b) && Linked(c) && Leaves(a, b, reservation) && Leaves(b, c, reservation)
    ensures Leaves(a, c, reservation)
  {
    GrowsTrans(a, b, c);
    forall m | 0 <= m < |b.messages| ensures LivesIn(c, m, reservation) <==> LivesIn(b, m, reservation) {
      assert Evolves(b.messages[m], c.messages[m]);
    }
    forall m | 0 <= m < |a.messages| && LivesIn(a, m, reservation) ensures c.messages[m] == a.messages[m] {
      assert Evolves(a.messages[m], b.messages[m]);
    }
    assert forall i :: |a.sources| <= i < |b.sources| ==> c.sources[i] == b.sources[i];
  }

  lemma LockElsewhere(s: Store, other: Reservation, reservation: Reservation)
    requires other != reservation
    ensures FindConversation(LockConversation(s, other).store, reservation) == FindConversation(s, reservation)
  {
    var s' := LockConversation(s, other).store;
    assert forall i :: 0 <= i < |s.conversations| ==> s'.conversations[i] == s.conversations[i];
  }

  /** A writer that touched only one message, of another conversation, leaves this one alone. */
  lemma OnlyOnLeaves(s: Store, s': Store, target: nat, other: Reservation, reservation: Reservation)
    requires Linked(s) && Linked(s') && Grows(s, s') && OnlyOn(s, s', target) && |s'.messages| <= |s.messages| + 1
    requires LivesIn(s', target, other) && other != reservation &&
             (|s'.messages| == |s.messages| || target == |s.messages|)
    requires FindConversation(s', reservation) == FindConversation(s, reservation)
    ensures Leaves(s, s', reservation)
  {
    forall m | 0 <= m < |s.messages| && LivesIn(s, m, reservation) ensures s'.messages[m] == s.messages[m] {
      assert Evolves(s.messages[m], s'.messages[m]);
    }
  }

  lemma ApplyLives(now: int, s0: Store, s: Store, reservation: Reservation, g: Group, visible: Option<nat>)
    requires Linked(s) && (visible.Some? ==> LivesIn(s, visible.value, reservation))
    ensures var s' := ApplyGroup(now, s0, s, reservation, g, visible).store;
            Linked(s') && LivesIn(s', visible.GetOr(|s.messages|), reservation)
  {
    var any := (r: Raw) => true;
    ApplyGrows(now, s0, s, reservation, g, visible, any);
    if visible.None? {
      var l := LockConversation(s, reservation);
      var born := InsertMessage(l.store, GroupRow(now, reservation.tenant, l.conversation, g));
      FillGrows(s0, born, reservation.tenant, |s.messages|, g.members, any);
      var f := FillMembers(s0, born, reservation.tenant, |s.messages|, g.members).store;
      assert Evolves(born.messages[|s.messages|], f.messages[|s.messages|]);
    } else {
      var s' := ApplyGroup(now, s0, s, reservation, g, visible).store;
      assert Evolves(s.messages[visible.value], s'.messages[visible.value]);
    }
  }

  lemma ApplyLeaves(now: int, s0: Store, s: Store, reservation: Reservation, g: Group, visible: Option<nat>,
                    other: Reservation)
    requires Linked(s) && (visible.Some? ==> LivesIn(s, visible.value, reservation)) && other != reservation
    ensures var s' := ApplyGroup(now, s0, s, reservation, g, visible).store;
            Linked(s') && Leaves(s, s', other)
  {
    var s' := ApplyGroup(now, s0, s, reservation, g, visible).store;
    ApplyGrows(now, s0, s, reservation, g, visible, (r: Raw) => true);
    ApplyLives(now, s0, s, reservation, g, visible);
    LockElsewhere(s, reservation, other);
    SameConversations(s', LockConversation(s, reservation).store, other);
    OnlyOnLeaves(s, s', visible.GetOr(|s.messages|), reservation, other);
  }

  lemma SameConversations(a: Store, b: Store, reservation: Reservation)
    requires a.conversations == b.conversations
    ensures FindConversation(a, reservation) == FindConversation(b, reservation)
  {
  }

  /** Every todo that has a message has it in the reservation's conversation. */
  ghost predicate AtHome(s: Store, reservation: Reservation, todos: seq<Todo>)
    requires Linked(s)
  {
    forall k :: 0 <= k < |todos| && todos[k].resolution.visible.Some? ==>
      LivesIn(s, todos[k].resolution.visible.value, reservation)
  }

  lemma {:induction false} HandleAllLeaves(now: int, s0: Store, reservation: Reservation, todos: seq<Todo>,
                                           report: Report, other: Reservation)
    requires Linked(s0) && Fit(s0, todos) && AtHome(s0, reservation, todos) && other != reservation
    ensures var s := HandleAll(Apply, now, s0, reservation, todos, report).store;
            Linked(s) && Grows(s0, s) && Leaves(s0, s, other)
  {
    if todos != [] {
      var n := |todos| - 1;
      HandleAllLeaves(now, s0, reservation, todos[..n], report, other);
      var s := HandleAll(Apply, now, s0, reservation, todos[..n], report).store;
      NextLeaves(now, s0, s, reservation, todos[n], other);
    }
  }

  lemma NextLeaves(now: int, s0: Store, s: Store, reservation: Reservation, todo: Todo, other: Reservation)
    requires Linked(s0) && Linked(s) && Grows(s0, s) && Leaves(s0, s, other) && other != reservation
    requires todo.resolution.visible.Some? ==> LivesIn(s0, todo.resolution.visible.value, reservation)
    ensures var visible := todo.resolution.visible;
            (visible.Some? ==> visible.value < |s.messages|) &&
            var s' := ApplyGroup(now, s0, s, reservation, todo.group, visible).store;
            Linked(s') && Grows(s0, s') && Leaves(s0, s', other)
  {
    var visible := todo.resolution.visible;
    if visible.Some? { assert Evolves(s0.messages[visible.value], s.messages[visible.value]); }
    ApplyLeaves(now, s0, s, reservation, todo.group, visible, other);
    LeavesTrans(s0, s, ApplyGroup(now, s0, s, reservation, todo.group, visible).store, other);
  }

  lemma UnblockedAtHome(s: Store, w: Work)
    requires Core(s) && WorkOk(w)
    ensures AtHome(s, w.reservation, Unblocked(w, Resolutions(s, w), |w.groups|))
  {
    var todos := Unblocked(w, Resolutions(s, w), |w.groups|);
    UnblockedAreOk(s, w);
    forall k | 0 <= k < |todos| && todos[k].resolution.visible.Some?
      ensures LivesIn(s, todos[k].resolution.visible.value, w.reservation)
    {
      OpenGroup(s, w.reservation, todos[k].group, todos[k].resolution.visible.value);
    }
  }

  /** Applying one reservation's groups changes nothing in any other reservation's conversation. */
  lemma BackfillLeaves(now: int, s: Store, w: Work, report: Report, other: Reservation)
    requires Valid(s) && WorkOk(w) && other != w.reservation
    ensures var s' := ProcessReservation(Apply, now, s, w, report).store; Linked(s') && Leaves(s, s', other)
  {
    var rs := Resolutions(s, w);
    UnblockedAtHome(s, w);
    UnblockedAreOpen(s, w);
    HandleAllLeaves(now, s, w.reservation, Unblocked(w, rs, |rs|), AfterPhaseOne(w, rs, |s.messages|, report), other);
  }
}
