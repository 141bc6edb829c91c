/** When a check-in session is marked distributed, in any interleaving of workers. */
module ClaimLaws {
  import opened CheckinClaim

  predicate Distributed(w: World, s: nat) {
    s in w.rows && w.rows[s]
  }

  /** Event number k marks the session from elsewhere: it is there, and nobody holds its row. */
  ghost predicate MarksElsewhere(w: World, events: seq<Event>, s: nat, k: int) {
    0 <= k < |events| && events[k] == DistributeElsewhere(s) && !Held(Exec(w, events[..k]), s) &&
    s in Exec(w, events[..k]).rows
  }

  lemma StepDistributes(w: World, e: Event, s: nat)
    requires s in w.rows && Exclusive(w)
    ensures s in Next(w, e).rows
    ensures Distributed(Next(w, e), s) <==>
            Distributed(w, s) || (e == DistributeElsewhere(s) && !Held(w, s)) ||
            (e.Commit? && e.i < |w.workers| && w.workers[e.i] == Worker(s, Stamped))
  {
  }

  lemma StepSends(w: World, e: Event, s: nat)
    ensures CountSent(Next(w, e).workers, s) >= CountSent(w.workers, s)
    ensures CountSent(Next(w, e).workers, s) > CountSent(w.workers, s) <==>
            e.Commit? && e.i < |w.workers| && w.workers[e.i] == Worker(s, Stamped)
  {
    if Enabled(w, e) && !e.DistributeElsewhere? {
      SentOfUpdate(w.workers, e.i, Next(w, e).workers[e.i].pc, s);
    }
  }

  /** At the end of a run a session is marked distributed exactly when it was at first, some worker reported
      a send for it, or somebody else marked it while no worker held it: no refusal and no failure marks it. */
  lemma {:induction false} DistributedIff(w: World, events: seq<Event>, s: nat)
    requires Start(w) && s in w.rows
    ensures s in Exec(w, events).rows
    ensures Distributed(Exec(w, events), s) <==>
            Distributed(w, s) || CountSent(Exec(w, events).workers, s) >= 1 ||
            exists k :: MarksElsewhere(w, events, s, k)
  {
    if events == [] {
      NobodyStarted(w.workers, s);
    } else {
      var n := |events| - 1;
      DistributedIff(w, events[..n], s);
      ExecKeepsInv(w, events[..n]);
      StepDistributes(Exec(w, events[..n]), events[n], s);
      StepSends(Exec(w, events[..n]), events[n], s);
      MarksMore(w, events, s);
    }
  }

  lemma MarksMore(w: World, events: seq<Event>, s: nat)
    requires events != [] && s in Exec(w, events[..|events| - 1]).rows
    ensures var n := |events| - 1;
            (exists k :: MarksElsewhere(w, events, s, k)) <==>
            (exists k :: MarksElsewhere(w, events[..n], s, k)) ||
            (events[n] == DistributeElsewhere(s) && !Held(Exec(w, events[..n]), s))
  {
    var n := |events| - 1;
    forall k | 0 <= k < n ensures MarksElsewhere(w, events, s, k) <==> MarksElsewhere(w, events[..n], s, k) {
      assert events[..n][..k] == events[..k] && events[..n][k] == events[k];
    }
    assert MarksElsewhere(w, events, s, n) <==>
           events[n] == DistributeElsewhere(s) && !Held(Exec(w, events[..n]), s);
  }

  /** A worker that is done has heard that the session is missing exactly when it is, and a session that it has sent
      or found distributed is. */
  ghost predicate Settled(w: World, x: Worker) {
    x.pc.Done? ==>
      (x.pc.result == SessionMissing <==> x.session !in w.rows) &&
      (x.pc.result == AlreadyDistributed || x.pc.result == Sent ==> Distributed(w, x.session))
  }

  lemma NextSettles(w: World, e: Event, i: nat)
    requires Exclusive(w) && i < |w.workers| && Settled(w, w.workers[i])
    ensures var w' := Next(w, e);
            |w'.workers| == |w.workers| && w'.rows.Keys == w.rows.Keys &&
            w'.workers[i].session == w.workers[i].session && Settled(w', w'.workers[i])
  {
    if Enabled(w, e) && !e.DistributeElsewhere? && !e.Claim? {
      assert Holds(w.workers[e.i], w.workers[e.i].session);
    }
  }

  /** So it is for every worker after any interleaving, and no session comes or goes. */
  lemma {:induction false} AnswersAreSettled(w: World, events: seq<Event>, i: nat)
    requires Start(w) && i < |w.workers|
    ensures var r := Exec(w, events);
            |r.workers| == |w.workers| && r.rows.Keys == w.rows.Keys &&
            r.workers[i].session == w.workers[i].session && Settled(r, r.workers[i])
  {
    if events != [] {
      var n := |events| - 1;
      AnswersAreSettled(w, events[..n], i);
      ExecKeepsInv(w, events[..n]);
      NextSettles(Exec(w, events[..n]), events[n], i);
    }
  }
}
