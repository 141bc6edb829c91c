/** What a poll of the guest mailbox stores, counts and remembers, said of the listed mail alone. */
module InboxLaws {
  import opened Wrappers
  import opened GuestEmailIngest

  // ---------------------------------------------------------------- the rows

  /** A reply whose reservation is there and whose Message-ID is blank or on no row. */
  ghost predicate Fresh(rows: Rows, v: Visit) {
    v.fetched.Reply? && v.matched &&
    (v.fetched.parsed.messageId == "" ||
     forall i :: 0 <= i < |rows| ==> rows[i].messageId != v.fetched.parsed.messageId)
  }

  /** Nothing raised before visit number j. */
  ghost predicate Reached(rows: Rows, start: int, visits: seq<Visit>, j: int) {
    0 <= j < |visits| && !VisitAll(rows, start, visits[..j]).raised
  }

  /** The visit is reached and stores a row, or raises before it could. */
  ghost predicate StoresAt(rows: Rows, start: int, visits: seq<Visit>, j: int) {
    Reached(rows, start, visits, j) && visits[j].fault != Early &&
    Fresh(VisitAll(rows, start, visits[..j]).rows, visits[j])
  }

  /** What raises stops the loop: the work on a mail before its row, or what a new row sets off. */
  ghost predicate RaisesAt(rows: Rows, start: int, visits: seq<Visit>, j: int) {
    Reached(rows, start, visits, j) &&
    (visits[j].fault == Early ||
     (visits[j].fault == Late && Fresh(VisitAll(rows, start, visits[..j]).rows, visits[j])))
  }

  lemma StepOf(rows: Rows, start: int, visits: seq<Visit>, n: nat)
    requires n < |visits|
    ensures VisitAll(rows, start, visits[..n + 1]) == VisitOne(VisitAll(rows, start, visits[..n]), visits[n])
  {
    assert visits[..n + 1] == visits[..n] + [visits[n]];
    VisitAllOfMore(rows, start, visits[..n], visits[n]);
  }

  /** The loop raises exactly at a visit that does. */
  lemma {:induction false} RaisedIff(rows: Rows, start: int, visits: seq<Visit>, n: nat)
    requires n <= |visits|
    ensures VisitAll(rows, start, visits[..n]).raised <==>
            exists j :: 0 <= j < n && RaisesAt(rows, start, visits, j)
  {
    if n > 0 {
      var k := n - 1;
      RaisedIff(rows, start, visits, k);
      StepOf(rows, start, visits, k);
      assert k + 1 == n;
      assert VisitAll(rows, start, visits[..n]).raised <==>
             VisitAll(rows, start, visits[..k]).raised || RaisesAt(rows, start, visits, k);
    }
  }

  /** ix are the visits that store a row, in order, and the rows are the old ones and what those visits brought. */
  ghost predicate Rowed(rows: Rows, start: int, visits: seq<Visit>, n: nat, ix: seq<nat>, after: Rows)
    requires n <= |visits|
  {
    |after| == |rows| + |ix| && rows <= after && (forall a, b :: 0 <= a < b < |ix| ==> ix[a] < ix[b]) &&
    (forall j :: j in ix <==> 0 <= j < n && StoresAt(rows, start, visits, j)) &&
    forall a :: 0 <= a < |ix| ==>
      ix[a] < n && visits[ix[a]].fetched.Reply? && after[|rows| + a] == visits[ix[a]].fetched.parsed
  }

  /** The rows after the loop are the old ones and those of the visits that store one, as they were read. */
  lemma {:induction false} RowsAre(rows: Rows, start: int, visits: seq<Visit>, n: nat) returns (ix: seq<nat>)
    requires n <= |visits|
    ensures Rowed(rows, start, visits, n, ix, VisitAll(rows, start, visits[..n]).rows)
  {
    ix := [];
    if n > 0 {
      var k := n - 1;
      ix := RowsAre(rows, start, visits, k);
      StepOf(rows, start, visits, k);
      assert k + 1 == n;
      if StoresAt(rows, start, visits, k) { ix := ix + [k]; }
    }
  }

  // ---------------------------------------------------------------- the stored UID

  /** The greatest of a number and the UIDs of the visits. */
  ghost predicate Greatest(start: int, visits: seq<Visit>, uid: int) {
    start <= uid && (forall j :: 0 <= j < |visits| ==> visits[j].uid <= uid) &&
    (uid == start || exists j :: 0 <= j < |visits| && visits[j].uid == uid)
  }

  lemma GreatestMore(start: int, front: seq<Visit>, last: Visit, uid: int)
    requires Greatest(start, front, uid)
    ensures Greatest(start, front + [last], if last.uid > uid then last.uid else uid)
  {
    var all := front + [last];
    assert all[|front|] == last && forall j :: 0 <= j < |front| ==> all[j] == front[j];
    if uid != start {
      var j :| 0 <= j < |front| && front[j].uid == uid;
      assert all[j].uid == uid;
    }
  }

  lemma {:induction false} QuietUid(rows: Rows, start: int, visits: seq<Visit>)
    requires !VisitAll(rows, start, visits).raised
    ensures Greatest(start, visits, VisitAll(rows, start, visits).result.maxUid)
    decreases |visits|
  {
    if visits != [] {
      var front, last := SplitLast(visits);
      VisitAllOfMore(rows, start, front, last);
      QuietUid(rows, start, front);
      GreatestMore(start, front, last, VisitAll(rows, start, front).result.maxUid);
    }
  }

  /** A poll that connects, lists something and raises nothing moves the stored UID to the greatest of itself, where
      the search started, and what was listed; any other poll leaves it. */
  lemma PollMovesUid(box: Inbox, poll: Poll)
    ensures var start := if poll.since.Some? then poll.since.value else box.lastUid;
            var after := AfterPoll(box, poll).lastUid;
            if poll.connects && poll.visits != [] && !VisitAll(box.rows, start, poll.visits).raised
            then after >= box.lastUid && (after == box.lastUid || Greatest(start, poll.visits, after)) &&
                 start <= after && forall j :: 0 <= j < |poll.visits| ==> poll.visits[j].uid <= after
            else after == box.lastUid
  {
    var start := Start(box, poll);
    if !VisitAll(box.rows, start, poll.visits).raised { QuietUid(box.rows, start, poll.visits); }
  }

  // ---------------------------------------------------------------- the counts

  function Unreadables(visits: seq<Visit>): nat {
    if visits == [] then 0
    else Unreadables(visits[..|visits| - 1]) + if visits[|visits| - 1].fetched.Unreadable? then 1 else 0
  }

  /** When nothing raises the errors are the UIDs that could not be fetched; the other mail is ingested or skipped. */
  lemma {:induction false} ErrorsAre(rows: Rows, start: int, visits: seq<Visit>)
    requires !VisitAll(rows, start, visits).raised
    ensures VisitAll(rows, start, visits).result.errors == Unreadables(visits)
  {
    if visits != [] { ErrorsAre(rows, start, visits[..|visits| - 1]); }
  }
}
