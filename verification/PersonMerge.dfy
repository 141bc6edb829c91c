/** Merging the persons of the second OCR pass into those that are known. */
module PersonMerge {
  import opened Strings
  import opened DocumentOcr

  /** What a person is recognised by: the document number, else the surname; both may be blank. */
  datatype Keys = Keys(document: string, surname: string)

  /** How the keys of a person are read; Standard is how merge_persons reads them. */
  type Reader = Person -> Keys

  /** `upper()`, over the ASCII letters. */
  function Upper(s: string): string {
    seq(|s|, i requires 0 <= i < |s| => UpperChar(s[i]))
  }

  /** The normalised document number, by any normaliser, and the surname in upper case. */
  function Standard(normalize: string -> string): Reader {
    (p: Person) => Keys(normalize(p.document), Upper(Strip(p.surnames)))
  }

  function Dicts(items: seq<Item<Person>>): seq<Person> {
    if items == [] then []
    else Dicts(items[..|items| - 1]) + if items[|items| - 1].Dict? then [items[|items| - 1].value] else []
  }

  predicate HasDocument(read: Reader, merged: seq<Person>, document: string) {
    exists i :: 0 <= i < |merged| && read(merged[i]).document == document
  }

  predicate HasSurname(read: Reader, merged: seq<Person>, surname: string) {
    exists i :: 0 <= i < |merged| && read(merged[i]).surname == surname
  }

  /** A person with these keys is one of those already merged. */
  predicate Recognised(read: Reader, merged: seq<Person>, k: Keys) {
    (k.document != "" && HasDocument(read, merged, k.document)) ||
    (k.document == "" && k.surname != "" && HasSurname(read, merged, k.surname))
  }

  function Add(read: Reader, merged: seq<Person>, p: Person): seq<Person> {
    if Recognised(read, merged, read(p)) then merged else merged + [p]
  }

  function AddAll(read: Reader, merged: seq<Person>, extra: seq<Person>): seq<Person> {
    if extra == [] then merged else Add(read, AddAll(read, merged, extra[..|extra| - 1]), extra[|extra| - 1])
  }

  /** merge_persons */
  function Merge(read: Reader, existing: seq<Item<Person>>, extra: seq<Item<Person>>): seq<Person> {
    AddAll(read, Dicts(existing), Dicts(extra))
  }

  // ---------------------------------------------------------------- what is kept

  lemma KeysStay(read: Reader, merged: seq<Person>, merged': seq<Person>, k: Keys)
    requires merged <= merged'
    ensures HasDocument(read, merged, k.document) ==> HasDocument(read, merged', k.document)
    ensures HasSurname(read, merged, k.surname) ==> HasSurname(read, merged', k.surname)
    ensures Recognised(read, merged, k) ==> Recognised(read, merged', k)
  {
    assert forall i :: 0 <= i < |merged| ==> merged'[i] == merged[i];
    if HasDocument(read, merged, k.document) {
      var i :| 0 <= i < |merged| && read(merged[i]).document == k.document;
      assert read(merged'[i]).document == k.document;
    }
    if HasSurname(read, merged, k.surname) {
      var i :| 0 <= i < |merged| && read(merged[i]).surname == k.surname;
      assert read(merged'[i]).surname == k.surname;
    }
  }

  /** No person from position n on repeats an earlier document number or, without one, an earlier surname. */
  ghost predicate NoRepeats(read: Reader, merged: seq<Person>, n: nat) {
    forall j :: n <= j < |merged| ==> !Recognised(read, merged[..j], read(merged[j]))
  }

  lemma AddKeeps(read: Reader, merged: seq<Person>, p: Person, n: nat)
    requires n <= |merged| && NoRepeats(read, merged, n)
    ensures merged <= Add(read, merged, p) && NoRepeats(read, Add(read, merged, p), n)
  {
    var after := Add(read, merged, p);
    assert forall j :: 0 <= j <= |merged| ==> after[..j] == merged[..j];
    assert merged[..|merged|] == merged;
  }

  /** The known persons stay a prefix, and nothing appended repeats a document number or, without
      one, a surname that stands before it. */
  lemma {:induction false} AddAllKeeps(read: Reader, merged: seq<Person>, extra: seq<Person>)
    ensures merged <= AddAll(read, merged, extra) && NoRepeats(read, AddAll(read, merged, extra), |merged|)
  {
    if extra == [] {
      assert merged <= merged;
    } else {
      var n := |extra| - 1;
      AddAllKeeps(read, merged, extra[..n]);
      AddKeeps(read, AddAll(read, merged, extra[..n]), extra[n], |merged|);
    }
  }

  lemma MergeKeepsPrefix(read: Reader, existing: seq<Item<Person>>, extra: seq<Item<Person>>)
    ensures Dicts(existing) <= Merge(read, existing, extra) &&
            NoRepeats(read, Merge(read, existing, extra), |Dicts(existing)|)
  {
    AddAllKeeps(read, Dicts(existing), Dicts(extra));
  }

  // ---------------------------------------------------------------- merging again

  predicate Anonymous(read: Reader, p: Person) {
    read(p) == Keys("", "")
  }

  /** The persons with neither a document number nor a surname. */
  function Unnamed(read: Reader, persons: seq<Person>): seq<Person> {
    if persons == [] then []
    else
      Unnamed(read, persons[..|persons| - 1]) +
      if Anonymous(read, persons[|persons| - 1]) then [persons[|persons| - 1]] else []
  }

  lemma AddedIsRecognised(read: Reader, merged: seq<Person>, p: Person)
    requires !Anonymous(read, p)
    ensures Recognised(read, Add(read, merged, p), read(p))
  {
    var after := merged + [p];
    assert after[|merged|] == p;
    assert read(after[|merged|]) == read(p);
  }

  lemma {:induction false} AddedAreRecognised(read: Reader, merged: seq<Person>, extra: seq<Person>, k: nat)
    requires k < |extra| && !Anonymous(read, extra[k])
    ensures Recognised(read, AddAll(read, merged, extra), read(extra[k]))
  {
    var n := |extra| - 1;
    var before := AddAll(read, merged, extra[..n]);
    if k < n {
      AddedAreRecognised(read, merged, extra[..n], k);
      KeysStay(read, before, Add(read, before, extra[n]), read(extra[k]));
    } else {
      AddedIsRecognised(read, before, extra[n]);
    }
  }

  lemma AddOneAgain(read: Reader, merged: seq<Person>, more: seq<Person>, p: Person)
    requires !Anonymous(read, p) ==> Recognised(read, merged, read(p))
    ensures Add(read, merged + more, p) == merged + (more + if Anonymous(read, p) then [p] else [])
  {
    KeysStay(read, merged, merged + more, read(p));
    assert merged + more + [p] == merged + (more + [p]);
    assert more + [] == more;
  }

  lemma {:induction false} AddRecognised(read: Reader, merged: seq<Person>, extra: seq<Person>)
    requires forall k :: 0 <= k < |extra| && !Anonymous(read, extra[k]) ==> Recognised(read, merged, read(extra[k]))
    ensures AddAll(read, merged, extra) == merged + Unnamed(read, extra)
  {
    if extra == [] {
      assert merged + [] == merged;
    } else {
      var n := |extra| - 1;
      AddRecognised(read, merged, extra[..n]);
      AddOneAgain(read, merged, Unnamed(read, extra[..n]), extra[n]);
    }
  }

  /** Merging the same extras once more appends exactly the unnamed ones again. */
  lemma MergingAgain(read: Reader, merged: seq<Person>, extra: seq<Person>)
    ensures AddAll(read, AddAll(read, merged, extra), extra) == AddAll(read, merged, extra) + Unnamed(read, extra)
  {
    forall k | 0 <= k < |extra| && !Anonymous(read, extra[k])
      ensures Recognised(read, AddAll(read, merged, extra), read(extra[k]))
    {
      AddedAreRecognised(read, merged, extra, k);
    }
    AddRecognised(read, AddAll(read, merged, extra), extra);
  }

  lemma {:induction false} UnnamedNone(read: Reader, persons: seq<Person>)
    ensures Unnamed(read, persons) == [] <==> forall k :: 0 <= k < |persons| ==> !Anonymous(read, persons[k])
  {
    if persons != [] {
      var n := |persons| - 1;
      UnnamedNone(read, persons[..n]);
      assert forall k :: 0 <= k < n ==> persons[..n][k] == persons[k];
      assert Unnamed(read, persons[..n]) <= Unnamed(read, persons);
    }
  }

  /** So merging again changes nothing exactly when every extra has a document number or a surname. */
  lemma MergingAgainIsNoOp(read: Reader, merged: seq<Person>, extra: seq<Person>)
    ensures AddAll(read, AddAll(read, merged, extra), extra) == AddAll(read, merged, extra)
       <==> forall k :: 0 <= k < |extra| ==> !Anonymous(read, extra[k])
  {
    MergingAgain(read, merged, extra);
    UnnamedNone(read, extra);
    var once, more := AddAll(read, merged, extra), Unnamed(read, extra);
    assert |once + more| == |once| + |more|;
    assert more == [] ==> once + more == once;
  }

  // ---------------------------------------------------------------- the loops

  /** The two sets that the loops grow hold the non-blank keys of what is merged. */
  ghost predicate Tracks(read: Reader, merged: seq<Person>, documents: set<string>, surnames: set<string>) {
    (forall d :: d in documents <==> d != "" && HasDocument(read, merged, d)) &&
    (forall s :: s in surnames <==> s != "" && HasSurname(read, merged, s))
  }

  function WithKey(keys: set<string>, key: string): set<string> {
    if key != "" then keys + {key} else keys
  }

  lemma KeysOfAppended(read: Reader, merged: seq<Person>, p: Person, x: string)
    ensures HasDocument(read, merged + [p], x) <==> HasDocument(read, merged, x) || x == read(p).document
    ensures HasSurname(read, merged + [p], x) <==> HasSurname(read, merged, x) || x == read(p).surname
  {
    var after := merged + [p];
    KeysStay(read, merged, after, Keys(x, x));
    assert read(after[|merged|]) == read(p);
    assert forall i :: 0 <= i < |merged| ==> after[i] == merged[i];
  }

  lemma TracksNext(read: Reader, merged: seq<Person>, documents: set<string>, surnames: set<string>, p: Person)
    requires Tracks(read, merged, documents, surnames)
    ensures Tracks(read, merged + [p], WithKey(documents, read(p).document), WithKey(surnames, read(p).surname))
  {
    forall x
      ensures HasDocument(read, merged + [p], x) <==> HasDocument(read, merged, x) || x == read(p).document
      ensures HasSurname(read, merged + [p], x) <==> HasSurname(read, merged, x) || x == read(p).surname
    {
      KeysOfAppended(read, merged, p, x);
    }
  }

  lemma DictsNext(items: seq<Item<Person>>, i: nat)
    requires i < |items|
    ensures Dicts(items[..i + 1]) == Dicts(items[..i]) + if items[i].Dict? then [items[i].value] else []
  {
    assert items[..i + 1][..i] == items[..i];
  }

  lemma AddAllNext(read: Reader, merged: seq<Person>, front: seq<Person>, p: Person)
    ensures AddAll(read, merged, front + [p]) == Add(read, AddAll(read, merged, front), p)
  {
    assert (front + [p])[..|front|] == front;
  }

  method CopyKnown(read: Reader, existing: seq<Item<Person>>)
    returns (merged: seq<Person>, documents: set<string>, surnames: set<string>)
    ensures merged == Dicts(existing) && Tracks(read, merged, documents, surnames)
  {
    merged, documents, surnames := [], {}, {};
    for i := 0 to |existing|
      invariant merged == Dicts(existing[..i]) && Tracks(read, merged, documents, surnames)
    {
      DictsNext(existing, i);
      if existing[i].Dict? {
        var person := existing[i].value;
        TracksNext(read, merged, documents, surnames, person);
        merged := merged + [person];
        documents, surnames := WithKey(documents, read(person).document), WithKey(surnames, read(person).surname);
      }
    }
    assert existing[..|existing|] == existing;
  }

  method MergePersons(read: Reader, existing: seq<Item<Person>>, extra: seq<Item<Person>>) returns (merged: seq<Person>)
    ensures merged == Merge(read, existing, extra)
  {
    var documents, surnames;
    merged, documents, surnames := CopyKnown(read, existing);
    ghost var known := merged;
    for i := 0 to |extra|
      invariant merged == AddAll(read, known, Dicts(extra[..i])) && Tracks(read, merged, documents, surnames)
    {
      DictsNext(extra, i);
      assert Dicts(extra[..i]) + [] == Dicts(extra[..i]);
      if extra[i].Other? { continue; }
      var person := extra[i].value;
      AddAllNext(read, known, Dicts(extra[..i]), person);
      var k := read(person);
      if k.document != "" && k.document in documents { continue; }
      if k.document == "" && k.surname != "" && k.surname in surnames { continue; }
      TracksNext(read, merged, documents, surnames, person);
      merged := merged + [person];
      documents, surnames := WithKey(documents, k.document), WithKey(surnames, k.surname);
    }
    assert extra[..|extra|] == extra;
  }
}
