/** Polling a tenant's guest mailbox over IMAP with a stored highest UID. */
module GuestEmailIngest {
  import opened Wrappers

  datatype Parsed = Parsed(messageId: string, bookingCode: string, body: string)

  /** What fetching one UID gives: nothing usable, mail that is not a guest's reply, or a reply. */
  datatype Fetched = Unreadable | Foreign | Reply(parsed: Parsed)

  /** Where the work on one UID raises, if it does: before or after a row could be stored. */
  datatype Fault = NoFault | Early | Late

  /** One listed UID; `matched` tells whether the booking code finds a reservation at that time. */
  datatype Visit = Visit(uid: int, fetched: Fetched, matched: bool, fault: Fault)

  /** One poll. The server may list any UIDs: `UID n:*` always includes the last message, also one
      below n (section 6.4.8 of RFC 3501). */
  datatype Poll = Poll(since: Option<int>, connects: bool, visits: seq<Visit>)

  datatype IngestResult = IngestResult(ingested: nat, skipped: nat, errors: nat, maxUid: int)

  type Rows = seq<Parsed>

  // ---------------------------------------------------------------- one mail

  predicate Known(rows: Rows, id: string) {
    exists i :: 0 <= i < |rows| && rows[i].messageId == id
  }

  /** Whether ingest_parsed_email stores a row for the reply. */
  predicate Stores(rows: Rows, v: Visit) {
    v.fetched.Reply? && v.fault != Early && v.matched &&
    !(v.fetched.parsed.messageId != "" && Known(rows, v.fetched.parsed.messageId))
  }

  function RowsAfter(rows: Rows, v: Visit): Rows {
    if Stores(rows, v) then rows + [v.fetched.parsed] else rows
  }

  /** A late fault follows only what a stored row sets off. */
  predicate Raises(rows: Rows, v: Visit) {
    v.fault == Early || (v.fault == Late && Stores(rows, v))
  }

  function Max(a: int, b: int): int { if a >= b then a else b }

  datatype Progress = Progress(rows: Rows, result: IngestResult, raised: bool)

  /** One round of the UID loop. */
  function VisitOne(p: Progress, v: Visit): Progress {
    if p.raised then p
    else
      var r := p.result.(maxUid := Max(p.result.maxUid, v.uid));
      if Raises(p.rows, v) then Progress(RowsAfter(p.rows, v), r, true)
      else if v.fetched.Unreadable? then p.(result := r.(errors := r.errors + 1))
      else if Stores(p.rows, v) then Progress(RowsAfter(p.rows, v), r.(ingested := r.ingested + 1), false)
      else p.(result := r.(skipped := r.skipped + 1))
  }

  function VisitAll(rows: Rows, start: int, visits: seq<Visit>): (p: Progress)
    ensures p.result.maxUid >= start
  {
    if visits == [] then Progress(rows, IngestResult(0, 0, 0, start), false)
    else VisitOne(VisitAll(rows, start, visits[..|visits| - 1]), visits[|visits| - 1])
  }

  // ---------------------------------------------------------------- polls

  datatype Inbox = Inbox(rows: Rows, lastUid: int)

  function Start(box: Inbox, poll: Poll): int {
    poll.since.GetOr(box.lastUid)
  }

  /** The mailbox after a poll: rows are stored as they come, the UID only when nothing raised. */
  function AfterPoll(box: Inbox, poll: Poll): Inbox {
    if !poll.connects then box
    else
      var p := VisitAll(box.rows, Start(box, poll), poll.visits);
      Inbox(p.rows, if p.raised || poll.visits == [] then box.lastUid else Max(box.lastUid, p.result.maxUid))
  }

  function AfterPolls(box: Inbox, polls: seq<Poll>): Inbox {
    if polls == [] then box else AfterPoll(AfterPolls(box, polls[..|polls| - 1]), polls[|polls| - 1])
  }

  ghost predicate UniqueIds(rows: Rows) {
    forall i, j :: 0 <= i < j < |rows| && rows[i].messageId != "" ==> rows[i].messageId != rows[j].messageId
  }

  lemma {:induction false} VisitsKeepUnique(rows: Rows, start: int, visits: seq<Visit>)
    requires UniqueIds(rows)
    ensures UniqueIds(VisitAll(rows, start, visits).rows) && rows <= VisitAll(rows, start, visits).rows
  {
    if visits != [] { VisitsKeepUnique(rows, start, visits[..|visits| - 1]); }
  }

  /** Over every run of polls, also ones cut short and ones that list mail again: a non-empty
      Message-ID has at most one row, no row goes away, and the stored UID never decreases. */
  lemma {:induction false} PollsKeepUnique(box: Inbox, polls: seq<Poll>)
    requires UniqueIds(box.rows)
    ensures UniqueIds(AfterPolls(box, polls).rows)
    ensures box.rows <= AfterPolls(box, polls).rows && box.lastUid <= AfterPolls(box, polls).lastUid
  {
    if polls != [] {
      var n := |polls| - 1;
      PollsKeepUnique(box, polls[..n]);
      var before := AfterPolls(box, polls[..n]);
      VisitsKeepUnique(before.rows, Start(before, polls[n]), polls[n].visits);
    }
  }

  /** In a poll that raises nothing every listed UID is counted once, and the rows that were added are
      those counted as ingested; a poll that raises adds at most one row that it does not count. */
  lemma {:induction false} EveryUidIsCounted(rows: Rows, start: int, visits: seq<Visit>)
    ensures var p := VisitAll(rows, start, visits);
            var r := p.result;
            (if p.raised then r.ingested <= |p.rows| - |rows| <= r.ingested + 1 &&
             r.ingested + r.skipped + r.errors < |visits|
             else |p.rows| - |rows| == r.ingested && r.ingested + r.skipped + r.errors == |visits|)
  {
    if visits != [] { EveryUidIsCounted(rows, start, visits[..|visits| - 1]); }
  }

  /** A reply with a reservation and a Message-ID. */
  predicate Wanted(v: Visit) {
    v.fetched.Reply? && v.matched && v.fetched.parsed.messageId != ""
  }

  lemma KnownStays(rows: Rows, rows': Rows, id: string)
    requires rows <= rows' && Known(rows, id)
    ensures Known(rows', id)
  {
    var i :| 0 <= i < |rows| && rows[i].messageId == id;
    assert rows'[i] == rows[i];
  }

  /** The row could be the reply's: by Message-ID, or altogether when there is none. */
  predicate Same(row: Parsed, reply: Parsed) {
    row.messageId == reply.messageId && (reply.messageId == "" ==> row == reply)
  }

  predicate HasRow(rows: Rows, reply: Parsed) {
    exists i :: 0 <= i < |rows| && Same(rows[i], reply)
  }

  /** The mail is such a reply, and its reservation is there. */
  predicate Brings(v: Visit, reply: Parsed) {
    v.fetched.Reply? && v.matched && Same(v.fetched.parsed, reply)
  }

  predicate Brought(visits: seq<Visit>, reply: Parsed) {
    exists j :: 0 <= j < |visits| && Brings(visits[j], reply)
  }

  lemma HasRowOfMore(rows: Rows, row: Parsed, reply: Parsed)
    ensures HasRow(rows + [row], reply) <==> HasRow(rows, reply) || Same(row, reply)
  {
    var more := rows + [row];
    assert more[|rows|] == row;
    if HasRow(rows, reply) {
      var i :| 0 <= i < |rows| && Same(rows[i], reply);
      assert more[i] == rows[i];
    }
  }

  lemma VisitBrings(p: Progress, v: Visit, reply: Parsed)
    ensures HasRow(VisitOne(p, v).rows, reply) <==>
            HasRow(p.rows, reply) || (!p.raised && v.fault != Early && Brings(v, reply))
  {
    if Stores(p.rows, v) {
      HasRowOfMore(p.rows, v.fetched.parsed, reply);
    } else if !p.raised && v.fault != Early && Brings(v, reply) {
      var i :| 0 <= i < |p.rows| && p.rows[i].messageId == v.fetched.parsed.messageId;
      assert Same(p.rows[i], reply);
    }
  }

  /** The visit comes before anything raised, does not raise before it can store, and is such a mail. */
  predicate BringsAt(rows: Rows, start: int, visits: seq<Visit>, j: nat, reply: Parsed)
    requires j < |visits|
  {
    !VisitAll(rows, start, visits[..j]).raised && visits[j].fault != Early && Brings(visits[j], reply)
  }

  predicate BroughtInTime(rows: Rows, start: int, visits: seq<Visit>, reply: Parsed) {
    exists j :: 0 <= j < |visits| && BringsAt(rows, start, visits, j, reply)
  }

  lemma InTimeOfMore(rows: Rows, start: int, front: seq<Visit>, last: Visit, reply: Parsed)
    ensures BroughtInTime(rows, start, front + [last], reply) <==>
            BroughtInTime(rows, start, front, reply) ||
            (!VisitAll(rows, start, front).raised && last.fault != Early && Brings(last, reply))
  {
    var all := front + [last];
    assert all[..|front|] == front && all[|front|] == last;
    forall j | 0 <= j < |front| ensures BringsAt(rows, start, all, j, reply) <==>
        BringsAt(rows, start, front, j, reply) {
      assert all[..j] == front[..j] && all[j] == front[j];
    }
    if BroughtInTime(rows, start, front, reply) {
      var j :| 0 <= j < |front| && BringsAt(rows, start, front, j, reply);
      assert BringsAt(rows, start, all, j, reply);
    }
    if !VisitAll(rows, start, front).raised && last.fault != Early && Brings(last, reply) {
      assert BringsAt(rows, start, all, |front|, reply);
    }
  }

  lemma VisitAllOfMore(rows: Rows, start: int, front: seq<Visit>, last: Visit)
    ensures VisitAll(rows, start, front + [last]) == VisitOne(VisitAll(rows, start, front), last)
  {
    assert (front + [last])[..|front|] == front;
  }

  /** After a loop over UIDs, cut short or not, a reply has a row exactly when it had one or a visit brought it
      in time. */
  lemma {:induction false} VisitsBring(rows: Rows, start: int, visits: seq<Visit>, reply: Parsed)
    ensures HasRow(VisitAll(rows, start, visits).rows, reply) <==>
            HasRow(rows, reply) || BroughtInTime(rows, start, visits, reply)
    decreases |visits|
  {
    if visits != [] {
      var front, last := SplitLast(visits);
      VisitsBring(rows, start, front, reply);
      VisitAllOfMore(rows, start, front, last);
      VisitBrings(VisitAll(rows, start, front), last, reply);
      InTimeOfMore(rows, start, front, last, reply);
    }
  }

  lemma {:induction false} RaisedStays(rows: Rows, start: int, visits: seq<Visit>, k: nat)
    requires k <= |visits| && VisitAll(rows, start, visits[..k]).raised
    ensures VisitAll(rows, start, visits) == VisitAll(rows, start, visits[..k])
  {
    if k == |visits| {
      assert visits[..k] == visits;
    } else {
      assert visits[..|visits| - 1][..k] == visits[..k];
      RaisedStays(rows, start, visits[..|visits| - 1], k);
    }
  }

  lemma {:induction false} EarlyRaises(rows: Rows, start: int, visits: seq<Visit>, j: nat)
    requires j < |visits| && visits[j].fault == Early
    ensures VisitAll(rows, start, visits).raised
  {
    var upTo := visits[..j + 1];
    assert upTo[..j] == visits[..j] && upTo[j] == visits[j];
    assert VisitAll(rows, start, upTo) == VisitOne(VisitAll(rows, start, visits[..j]), visits[j]);
    RaisedStays(rows, start, visits, j + 1);
  }

  /** The loop that raises nothing reaches every UID. */
  lemma QuietInTime(rows: Rows, start: int, visits: seq<Visit>, reply: Parsed)
    requires !VisitAll(rows, start, visits).raised
    ensures BroughtInTime(rows, start, visits, reply) <==> Brought(visits, reply)
  {
    forall j | 0 <= j < |visits| ensures BringsAt(rows, start, visits, j, reply) <==> Brings(visits[j], reply) {
      if VisitAll(rows, start, visits[..j]).raised { RaisedStays(rows, start, visits, j); }
      if visits[j].fault == Early { EarlyRaises(rows, start, visits, j); }
    }
    if Brought(visits, reply) {
      var j :| 0 <= j < |visits| && Brings(visits[j], reply);
      assert BringsAt(rows, start, visits, j, reply);
    }
  }

  predicate PollBrings(box: Inbox, poll: Poll, reply: Parsed) {
    poll.connects && BroughtInTime(box.rows, Start(box, poll), poll.visits, reply)
  }

  predicate RunBrings(box: Inbox, polls: seq<Poll>, reply: Parsed) {
    exists k :: 0 <= k < |polls| && PollBrings(AfterPolls(box, polls[..k]), polls[k], reply)
  }

  lemma RunBringsOfMore(box: Inbox, front: seq<Poll>, last: Poll, reply: Parsed)
    ensures RunBrings(box, front + [last], reply) <==>
            RunBrings(box, front, reply) || PollBrings(AfterPolls(box, front), last, reply)
  {
    var all := front + [last];
    assert all[..|front|] == front && all[|front|] == last;
    forall k | 0 <= k < |front| ensures all[..k] == front[..k] && all[k] == front[k] {}
    if RunBrings(box, front, reply) {
      var k :| 0 <= k < |front| && PollBrings(AfterPolls(box, front[..k]), front[k], reply);
      assert all[..k] == front[..k] && PollBrings(AfterPolls(box, all[..k]), all[k], reply);
    }
    if PollBrings(AfterPolls(box, front), last, reply) {
      assert PollBrings(AfterPolls(box, all[..|front|]), all[|front|], reply);
    }
  }

  lemma PollsOfMore(box: Inbox, front: seq<Poll>, last: Poll)
    ensures AfterPolls(box, front + [last]) == AfterPoll(AfterPolls(box, front), last)
  {
    assert (front + [last])[..|front|] == front;
  }

  /** After any run of polls, cut short or not, a reply has a row exactly when it had one at first, or some poll
      listed it, with its reservation there, before anything raised. */
  lemma {:induction false} RunHasRowIff(box: Inbox, polls: seq<Poll>, reply: Parsed)
    ensures HasRow(AfterPolls(box, polls).rows, reply) <==> HasRow(box.rows, reply) || RunBrings(box, polls, reply)
    decreases |polls|
  {
    if polls != [] {
      var front, last := SplitLast(polls);
      RunHasRowIff(box, front, reply);
      PollsOfMore(box, front, last);
      RunBringsOfMore(box, front, last, reply);
      var before := AfterPolls(box, front);
      VisitsBring(before.rows, Start(before, last), last.visits, reply);
    }
  }

  /** The poll lists a mail that raises before a row could be stored. */
  predicate ListsBadMail(poll: Poll) {
    exists j :: 0 <= j < |poll.visits| && poll.visits[j].fault == Early
  }

  /** Mail that raises every time keeps the stored UID where it is, for as long as it is listed. */
  lemma {:induction false} BadMailHoldsTheUid(box: Inbox, polls: seq<Poll>)
    requires forall k :: 0 <= k < |polls| && polls[k].connects ==> ListsBadMail(polls[k])
    ensures AfterPolls(box, polls).lastUid == box.lastUid
    decreases |polls|
  {
    if polls != [] {
      var front, last := SplitLast(polls);
      assert polls[|front|] == last && forall k :: 0 <= k < |front| ==> polls[k] == front[k];
      BadMailHoldsTheUid(box, front);
      PollsOfMore(box, front, last);
      if last.connects {
        var before := AfterPolls(box, front);
        var j :| 0 <= j < |last.visits| && last.visits[j].fault == Early;
        EarlyRaises(before.rows, Start(before, last), last.visits, j);
      }
    }
  }

  /** A reply that the stored UID moved past has a row exactly when it had one, or this poll listed it with
      its reservation there; a poll that raises leaves the stored UID, so its mail is listed again. */
  lemma PassedOverHasRowIff(box: Inbox, poll: Poll, k: nat)
    requires poll.connects && k < |poll.visits| && poll.visits[k].fetched.Reply?
    requires box.lastUid < poll.visits[k].uid <= AfterPoll(box, poll).lastUid
    ensures var reply := poll.visits[k].fetched.parsed;
            HasRow(AfterPoll(box, poll).rows, reply) <==> HasRow(box.rows, reply) || Brought(poll.visits, reply)
  {
    VisitsBring(box.rows, Start(box, poll), poll.visits, poll.visits[k].fetched.parsed);
    QuietInTime(box.rows, Start(box, poll), poll.visits, poll.visits[k].fetched.parsed);
  }

  /** So a reply with a Message-ID whose reservation is there is never passed over. */
  lemma NothingIsPassedOver(box: Inbox, poll: Poll, k: nat)
    requires poll.connects && k < |poll.visits| && Wanted(poll.visits[k])
    requires box.lastUid < poll.visits[k].uid <= AfterPoll(box, poll).lastUid
    ensures Known(AfterPoll(box, poll).rows, poll.visits[k].fetched.parsed.messageId)
  {
    var reply := poll.visits[k].fetched.parsed;
    PassedOverHasRowIff(box, poll, k);
    assert Brings(poll.visits[k], reply);
    var i :| 0 <= i < |AfterPoll(box, poll).rows| && Same(AfterPoll(box, poll).rows[i], reply);
  }

  /** But mail that cannot be fetched, and a reply that comes before its reservation, are: the stored UID
      moves past them without a row, and the search for later UIDs lists them again only while they are the
      mailbox's last. */
  lemma EarlyReplyIsPassedOver(box: Inbox, v: Visit)
    requires v.fault == NoFault && box.lastUid < v.uid && (v.fetched.Unreadable? || (v.fetched.Reply? && !v.matched))
    ensures AfterPoll(box, Poll(None, true, [v])) == Inbox(box.rows, v.uid)
  {
    assert [v][..0] == [];
    assert VisitAll(box.rows, box.lastUid, []) == Progress(box.rows, IngestResult(0, 0, 0, box.lastUid), false);
  }

  /** Polling the same mail again after any other polls adds no row for a Message-ID it has. */
  lemma ServedAgain(box: Inbox, polls: seq<Poll>, v: Visit)
    requires UniqueIds(box.rows) && v.fetched.Reply? && v.fetched.parsed.messageId != "" &&
             Known(box.rows, v.fetched.parsed.messageId)
    ensures RowsAfter(AfterPolls(box, polls).rows, v) == AfterPolls(box, polls).rows
  {
    PollsKeepUnique(box, polls);
    KnownStays(box.rows, AfterPolls(box, polls).rows, v.fetched.parsed.messageId);
  }

  // ---------------------------------------------------------------- the poll in place

  class GuestInbox {
    var rows: Rows
    var lastUid: int

    function View(): Inbox
      reads this
    {
      Inbox(rows, lastUid)
    }

    /** ingest_parsed_email: whether it stored a row and whether something raised. */
    method IngestParsedEmail(parsed: Parsed, matched: bool, fault: Fault) returns (stored: bool, raised: bool)
      modifies this`rows
      ensures var v := Visit(0, Reply(parsed), matched, fault);
              rows == RowsAfter(old(rows), v) && raised == Raises(old(rows), v) && stored == Stores(old(rows), v)
    {
      if parsed.messageId != "" {
        var existing := FindFirst(rows, (row: Parsed) => row.messageId == parsed.messageId);
        if existing.Some? {
          return false, fault == Early;
        }
        assert !Known(rows, parsed.messageId);
      }
      if !matched { return false, fault == Early; }
      if fault == Early { return false, true; }
      rows := rows + [parsed];
      return true, fault == Late;
    }

    method PollGuestInbox(poll: Poll) returns (result: IngestResult, raised: bool)
      modifies this
      ensures View() == AfterPoll(old(View()), poll)
      ensures result.errors > 0 <== !poll.connects || raised
      ensures poll.connects && !raised ==> result.ingested + result.skipped + result.errors == |poll.visits|
      ensures poll.connects && !raised ==> result.ingested == |rows| - |old(rows)|
    {
      var start := poll.since.GetOr(lastUid);
      result, raised := IngestResult(0, 0, 0, start), false;
      if !poll.connects {
        result := result.(errors := 1);
        return;
      }
      if poll.visits == [] { return; }
      ghost var first := rows;
      for k := 0 to |poll.visits|
        invariant lastUid == old(lastUid)
        invariant !raised
        invariant Progress(rows, result, raised) == VisitAll(first, start, poll.visits[..k])
      {
        assert poll.visits[..k + 1][..k] == poll.visits[..k];
        var v := poll.visits[k];
        ghost var before := Progress(rows, result, raised);
        result := result.(maxUid := Max(result.maxUid, v.uid));
        match v.fetched {
          case Unreadable =>
            raised := v.fault == Early;
            if !raised { result := result.(errors := result.errors + 1); }
          case Foreign =>
            raised := v.fault == Early;
            if !raised { result := result.(skipped := result.skipped + 1); }
          case Reply(parsed) =>
            var stored;
            stored, raised := IngestParsedEmail(parsed, v.matched, v.fault);
            if !raised && stored { result := result.(ingested := result.ingested + 1); }
            if !raised && !stored { result := result.(skipped := result.skipped + 1); }
        }
        assert Progress(rows, result, raised) == VisitOne(before, v);
        if raised {
          RaisedStays(first, start, poll.visits, k + 1);
          result := result.(errors := result.errors + 1);
          return;
        }
      }
      assert poll.visits[..|poll.visits|] == poll.visits;
      EveryUidIsCounted(first, start, poll.visits);
      if result.maxUid > lastUid {
        lastUid := result.maxUid;
      }
    }
  }
}
