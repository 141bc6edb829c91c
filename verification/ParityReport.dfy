/** What comparing the raw and the canonical timelines of reservations reports. */
module ParityReport {
  import opened Wrappers
  import CanonicalStore
  import opened CanonicalTimeline
  import opened CanonicalRead

  // ---------------------------------------------------------------- agreement

  /** The entries agree on the key; one that lacks it agrees with None. */
  predicate AgreeOn(a: Entry, b: Entry, key: string) {
    if key in a then (if key in b then a[key] == b[key] else a[key] == NoneValue)
    else key in b ==> b[key] == NoneValue
  }

  /** The timelines are as long as each other and agree entry by entry on every key but the canonical id. */
  ghost predicate AgreeBut(a: seq<Entry>, b: seq<Entry>) {
    |a| == |b| && forall i, key :: 0 <= i < |a| && key != "canonical_id" ==> AgreeOn(a[i], b[i], key)
  }

  ghost predicate AllAgree(s: CanonicalStore.Store, q: Query) {
    forall k :: 0 <= k < |q.raws| ==> AgreeBut(q.raws[k].entries, TimelineFor(q.display, s, q.jobs, q.raws[k].pk))
  }

  lemma SameIffAgree(a: seq<Entry>, b: seq<Entry>)
    ensures SameTimeline(a, b) <==> AgreeBut(a, b)
  {
    if |a| == |b| {
      forall i | 0 <= i < |a|
        ensures SameEntry(a[i], b[i]) <==> forall key :: key != "canonical_id" ==> AgreeOn(a[i], b[i], key)
      {
        assert forall key :: AgreeOn(a[i], b[i], key) <==> GetKey(a[i], key) == GetKey(b[i], key);
      }
    }
  }

  lemma ParityIffAgree(s: CanonicalStore.Store, q: Query)
    ensures Parity(s, q) <==> AllAgree(s, q)
  {
    forall k | 0 <= k < |q.raws|
      ensures InParity(s, q, q.raws[k]) <==>
              AgreeBut(q.raws[k].entries, TimelineFor(q.display, s, q.jobs, q.raws[k].pk))
    {
      SameIffAgree(q.raws[k].entries, TimelineFor(q.display, s, q.jobs, q.raws[k].pk));
    }
  }

  // ---------------------------------------------------------------- one pair of items

  function ValueOf(e: Entry, key: string): Value {
    if key in e then e[key] else NoneValue
  }

  /** The differing fields of two items are the keys, but for the canonical id, on which they do not agree, each with
      the raw value first. */
  lemma DiffTells(a: Entry, b: Entry, key: string)
    ensures key in Diff(a, b) <==> key != "canonical_id" && !AgreeOn(a, b, key)
    ensures key in Diff(a, b) ==> Diff(a, b)[key] == Pair(ValueOf(a, key), ValueOf(b, key))
  {
  }

  // ---------------------------------------------------------------- one pair of timelines

  ghost function DiffersLaw(a: seq<Entry>, b: seq<Entry>): nat -> bool {
    (i: nat) => i < |a| && i < |b| && exists key :: key != "canonical_id" && !AgreeOn(a[i], b[i], key)
  }

  lemma DiffersIff(a: Entry, b: Entry)
    ensures Diff(a, b) != map[] <==> exists key :: key != "canonical_id" && !AgreeOn(a, b, key)
  {
    forall key ensures key in Diff(a, b) <==> key != "canonical_id" && !AgreeOn(a, b, key) { DiffTells(a, b, key); }
    if Diff(a, b) != map[] {
      var key :| key in Diff(a, b);
    }
  }

  /** The differences stand at the places ix. */
  ghost predicate StandAt(diffs: seq<Difference>, ix: seq<nat>, a: seq<Entry>, b: seq<Entry>) {
    |diffs| == |ix| && forall k :: 0 <= k < |ix| ==>
      ix[k] < |a| && ix[k] < |b| && diffs[k] == Difference(ix[k], Diff(a[ix[k]], b[ix[k]]))
  }

  lemma StandMore(diffs: seq<Difference>, ix: seq<nat>, a: seq<Entry>, b: seq<Entry>, n: nat)
    requires n < |a| == |b| && StandAt(diffs, ix, a, b)
    ensures StandAt(diffs + [Difference(n, Diff(a[n], b[n]))], ix + [n], a, b)
  {
  }

  lemma DifferencesNext(a: seq<Entry>, b: seq<Entry>, n: nat)
    requires n < |a| == |b|
    ensures Differences(a, b, n + 1) == if DiffersLaw(a, b)(n)
                                        then Differences(a, b, n) + [Difference(n, Diff(a[n], b[n]))]
                                        else Differences(a, b, n)
  {
    DiffersIff(a[n], b[n]);
  }

  /** The differences of two timelines of one length are those at the places where the items do not agree, in order. */
  lemma {:induction false} DifferencesAre(a: seq<Entry>, b: seq<Entry>, n: nat) returns (ix: seq<nat>)
    requires n <= |a| == |b|
    ensures Picks(ix, DiffersLaw(a, b), n) && StandAt(Differences(a, b, n), ix, a, b)
  {
    if n == 0 {
      ix := [];
    } else {
      var k := n - 1;
      ix := DifferencesAre(a, b, k);
      DifferencesNext(a, b, k);
      PicksMore(ix, DiffersLaw(a, b), k);
      if DiffersLaw(a, b)(k) {
        StandMore(Differences(a, b, k), ix, a, b, k);
        ix := ix + [k];
      }
      assert k + 1 == n;
    }
  }

  /** Two timelines of different lengths are reported with their lengths, others that do not agree with their
      differences. */
  lemma MismatchIs(pk: nat, raw: seq<Entry>, canonical: seq<Entry>)
    ensures var m := Mismatch(pk, raw, canonical);
            if |raw| != |canonical| then m == Some(LengthMismatch(pk, |raw|, |canonical|))
            else if AgreeBut(raw, canonical) then m.None?
            else m == Some(FieldMismatch(pk, Differences(raw, canonical, |raw|)))
  {
    NoMismatchIffSame(pk, raw, canonical);
    SameIffAgree(raw, canonical);
  }

  // ---------------------------------------------------------------- all reservations

  ghost function SomeLaw(found: seq<Option<Mismatched>>): nat -> bool {
    (k: nat) => k < |found| && found[k].Some?
  }

  /** Each of the mismatches was found at its place. */
  ghost predicate ReportedAt(mismatches: seq<Mismatched>, ix: seq<nat>, found: seq<Option<Mismatched>>) {
    |mismatches| == |ix| && forall a :: 0 <= a < |ix| ==> ix[a] < |found| && found[ix[a]] == Some(mismatches[a])
  }

  lemma CollectNext(found: seq<Option<Mismatched>>, n: nat)
    requires n < |found|
    ensures Collect(found[..n + 1]) == if found[n].Some? then Collect(found[..n]) + [found[n].value]
                                       else Collect(found[..n])
  {
    assert found[..n + 1][..n] == found[..n] && found[..n + 1][n] == found[n];
  }

  /** The mismatches are those of the reservations that have one, in order. */
  lemma {:induction false} CollectedAre(found: seq<Option<Mismatched>>, n: nat) returns (ix: seq<nat>)
    requires n <= |found|
    ensures Picks(ix, SomeLaw(found), n) && ReportedAt(Collect(found[..n]), ix, found)
  {
    if n == 0 {
      ix := [];
    } else {
      var k := n - 1;
      ix := CollectedAre(found, k);
      CollectNext(found, k);
      PicksMore(ix, SomeLaw(found), k);
      if found[k].Some? { ix := ix + [k]; }
      assert k + 1 == n;
    }
  }

  /** The entries of reservation number k of the query, read back. */
  function ReadBack(s: CanonicalStore.Store, q: Query, k: nat): seq<Entry>
    requires k < |q.raws|
  {
    TimelineFor(q.display, s, q.jobs, q.raws[k].pk)
  }

  ghost function AwryLaw(s: CanonicalStore.Store, q: Query): nat -> bool {
    (k: nat) => k < |q.raws| && !AgreeBut(q.raws[k].entries, ReadBack(s, q, k))
  }

  /** The mismatch gives the two lengths, or else every place where the entries do not agree, in order. */
  ghost predicate Tells(m: Mismatched, raw: RawTimeline, canonical: seq<Entry>) {
    if |raw.entries| != |canonical| then m == LengthMismatch(raw.pk, |raw.entries|, |canonical|)
    else m.FieldMismatch? && m.pk == raw.pk && exists ix: seq<nat> ::
      Picks(ix, DiffersLaw(raw.entries, canonical), |canonical|) && StandAt(m.diffs, ix, raw.entries, canonical)
  }

  lemma FindingTells(s: CanonicalStore.Store, q: Query, k: nat)
    requires k < |q.raws|
    ensures Findings(s, q)[k].Some? <==> AwryLaw(s, q)(k)
    ensures Findings(s, q)[k].Some? ==> Tells(Findings(s, q)[k].value, q.raws[k], ReadBack(s, q, k))
  {
    var raw, canonical := q.raws[k].entries, ReadBack(s, q, k);
    MismatchIs(q.raws[k].pk, raw, canonical);
    if |raw| == |canonical| {
      var ix := DifferencesAre(raw, canonical, |raw|);
    }
  }

  /** Comparing reports exactly the reservations whose two timelines do not agree, in order, each with what differs. */
  lemma ReportIs(s: CanonicalStore.Store, q: Query) returns (ix: seq<nat>)
    ensures Picks(ix, AwryLaw(s, q), |q.raws|) && |Collect(Findings(s, q))| == |ix|
    ensures forall a :: 0 <= a < |ix| ==>
              ix[a] < |q.raws| && Tells(Collect(Findings(s, q))[a], q.raws[ix[a]], ReadBack(s, q, ix[a]))
  {
    var found := Findings(s, q);
    assert found[..|found|] == found;
    ix := CollectedAre(found, |found|);
    forall k: nat | k < |q.raws| ensures SomeLaw(found)(k) <==> AwryLaw(s, q)(k) { FindingTells(s, q, k); }
    forall a | 0 <= a < |ix|
      ensures ix[a] < |q.raws| && Tells(Collect(found)[a], q.raws[ix[a]], ReadBack(s, q, ix[a]))
    {
      FindingTells(s, q, ix[a]);
    }
  }
}
