/** What the second OCR pass makes of each row of the replies, and which persons the merge appends. */
module OcrLaws {
  import opened Wrappers
  import opened Strings
  import opened DocumentOcr
  import opened PersonMerge

  // ---------------------------------------------------------------- images

  /** The row is a dict whose index is the number of a photo of the chunk. */
  predicate NamesPhoto(chunk: seq<nat>, item: Item<Image>) {
    item.Dict? && item.value.index.Int? && 0 <= item.value.index.value < |chunk|
  }

  ghost function PhotoLaw(chunk: seq<nat>, items: seq<Item<Image>>): nat -> bool {
    (i: nat) => i < |items| && NamesPhoto(chunk, items[i])
  }

  /** The image is the row as it came, but for the index, which is now that of the photo itself. */
  ghost predicate IsPhoto(chunk: seq<nat>, item: Item<Image>, image: Image) {
    NamesPhoto(chunk, item) && image.text == item.value.text && image.index == Int(chunk[item.value.index.value])
  }

  ghost predicate ImagesAre(chunk: seq<nat>, items: seq<Item<Image>>, n: nat, ix: seq<nat>, images: seq<Image>)
    requires n <= |items|
  {
    Picks(ix, PhotoLaw(chunk, items), n) && |images| == |ix| &&
    forall a :: 0 <= a < |ix| ==> ix[a] < n && IsPhoto(chunk, items[ix[a]], images[a])
  }

  lemma ImageKept(chunk: seq<nat>, items: seq<Item<Image>>, k: nat, ix: seq<nat>, images: seq<Image>, image: Image)
    requires k < |items| && ImagesAre(chunk, items, k, ix, images) && IsPhoto(chunk, items[k], image)
    ensures ImagesAre(chunk, items, k + 1, ix + [k], images + [image])
  {
    PicksMore(ix, PhotoLaw(chunk, items), k);
    var all, kept := ix + [k], images + [image];
    forall a | 0 <= a < |all| ensures all[a] < k + 1 && IsPhoto(chunk, items[all[a]], kept[a]) {
      if a < |ix| { assert all[a] == ix[a] && kept[a] == images[a]; }
    }
  }

  lemma ImageLeft(chunk: seq<nat>, items: seq<Item<Image>>, k: nat, ix: seq<nat>, images: seq<Image>)
    requires k < |items| && ImagesAre(chunk, items, k, ix, images) && !NamesPhoto(chunk, items[k])
    ensures ImagesAre(chunk, items, k + 1, ix, images)
  {
    PicksMore(ix, PhotoLaw(chunk, items), k);
  }

  function Remapped(chunk: seq<nat>, item: Item<Image>): seq<Image> {
    if NamesPhoto(chunk, item) then [item.value.(index := Int(chunk[item.value.index.value]))] else []
  }

  lemma RemapOfMore(chunk: seq<nat>, items: seq<Item<Image>>, k: nat)
    requires k < |items|
    ensures var front, after := RemapImages(chunk, items[..k]), RemapImages(chunk, items[..k + 1]);
            (after.None? <==> front.None? || (items[k].Dict? && items[k].value.index.NotInt?)) &&
            (after.Some? ==> after.value == front.value + Remapped(chunk, items[k]))
  {
    assert items[..k + 1][..k] == items[..k] && items[..k + 1][k] == items[k];
  }

  /** A reply fails exactly when it has an index that cannot be read. */
  lemma {:induction false} ReplyFails(chunk: seq<nat>, items: seq<Item<Image>>, n: nat)
    requires n <= |items|
    ensures RemapImages(chunk, items[..n]).None? <==>
            exists i :: 0 <= i < n && items[i].Dict? && items[i].value.index.NotInt?
  {
    if n > 0 {
      ReplyFails(chunk, items, n - 1);
      RemapOfMore(chunk, items, n - 1);
    }
  }

  /** A reply's images are its rows that name a photo of the chunk, in order. */
  lemma {:induction false} ImagesOfReply(chunk: seq<nat>, items: seq<Item<Image>>, n: nat) returns (ix: seq<nat>)
    requires n <= |items| && RemapImages(chunk, items[..n]).Some?
    ensures ImagesAre(chunk, items, n, ix, RemapImages(chunk, items[..n]).value)
  {
    ix := [];
    if n > 0 {
      var k := n - 1;
      RemapOfMore(chunk, items, k);
      ix := ImagesOfReply(chunk, items, k);
      var images := RemapImages(chunk, items[..k]).value;
      assert images + [] == images && k + 1 == n;
      if NamesPhoto(chunk, items[k]) {
        ImageKept(chunk, items, k, ix, images, items[k].value.(index := Int(chunk[items[k].value.index.value])));
        ix := ix + [k];
      } else {
        ImageLeft(chunk, items, k, ix, images);
      }
    }
  }

  // ---------------------------------------------------------------- persons

  ghost function DictLaw<T>(items: seq<Item<T>>): nat -> bool {
    (i: nat) => i < |items| && items[i].Dict?
  }

  /** The number of a photo of the chunk becomes that of the photo itself; anything else stays. */
  predicate NumberIs(chunk: seq<nat>, before: Number, after: Number) {
    if before.Int? && 0 <= before.value < |chunk| then after == Int(chunk[before.value]) else after == before
  }

  /** The person is the row as it came, but for the numbers of its photos. */
  ghost predicate IsPerson(chunk: seq<nat>, item: Item<Person>, q: Person) {
    item.Dict? && q.document == item.value.document && q.surnames == item.value.surnames &&
    NumberIs(chunk, item.value.front, q.front) && NumberIs(chunk, item.value.back, q.back)
  }

  ghost predicate PersonsAre(chunk: seq<nat>, items: seq<Item<Person>>, n: nat, ix: seq<nat>, persons: seq<Person>)
    requires n <= |items|
  {
    Picks(ix, DictLaw(items), n) && |persons| == |ix| &&
    forall a :: 0 <= a < |ix| ==> ix[a] < n && IsPerson(chunk, items[ix[a]], persons[a])
  }

  lemma RemapKeepsPerson(chunk: seq<nat>, item: Item<Person>)
    requires item.Dict?
    ensures IsPerson(chunk, item, RemapPerson(chunk, item.value))
  {
  }

  lemma PersonKept(chunk: seq<nat>, items: seq<Item<Person>>, k: nat, ix: seq<nat>, persons: seq<Person>,
                   person: Person)
    requires k < |items| && PersonsAre(chunk, items, k, ix, persons) && IsPerson(chunk, items[k], person)
    ensures PersonsAre(chunk, items, k + 1, ix + [k], persons + [person])
  {
    PicksMore(ix, DictLaw(items), k);
    var all, kept := ix + [k], persons + [person];
    forall a | 0 <= a < |all| ensures all[a] < k + 1 && IsPerson(chunk, items[all[a]], kept[a]) {
      if a < |ix| { assert all[a] == ix[a] && kept[a] == persons[a]; }
    }
  }

  lemma PersonLeft(chunk: seq<nat>, items: seq<Item<Person>>, k: nat, ix: seq<nat>, persons: seq<Person>)
    requires k < |items| && PersonsAre(chunk, items, k, ix, persons) && !items[k].Dict?
    ensures PersonsAre(chunk, items, k + 1, ix, persons)
  {
    PicksMore(ix, DictLaw(items), k);
  }

  lemma PersonsOfMore(chunk: seq<nat>, items: seq<Item<Person>>, k: nat)
    requires k < |items|
    ensures RemapPersons(chunk, items[..k + 1]) ==
            RemapPersons(chunk, items[..k]) + if items[k].Dict? then [RemapPerson(chunk, items[k].value)] else []
  {
    assert items[..k + 1][..k] == items[..k] && items[..k + 1][k] == items[k];
  }

  /** A reply's persons are its dicts, in order, with the photos' own numbers. */
  lemma {:induction false} PersonsOfReply(chunk: seq<nat>, items: seq<Item<Person>>, n: nat) returns (ix: seq<nat>)
    requires n <= |items|
    ensures PersonsAre(chunk, items, n, ix, RemapPersons(chunk, items[..n]))
  {
    ix := [];
    if n > 0 {
      var k := n - 1;
      PersonsOfMore(chunk, items, k);
      ix := PersonsOfReply(chunk, items, k);
      var persons := RemapPersons(chunk, items[..k]);
      assert persons + [] == persons && k + 1 == n;
      if items[k].Dict? {
        RemapKeepsPerson(chunk, items[k]);
        PersonKept(chunk, items, k, ix, persons, RemapPerson(chunk, items[k].value));
        ix := ix + [k];
      } else {
        PersonLeft(chunk, items, k, ix, persons);
      }
    }
  }

  // ---------------------------------------------------------------- the whole pass

  /** Photo number l of chunk k is orphan number 6 * k + l. */
  lemma {:induction false} PhotoOfChunk(indices: seq<nat>, k: nat, l: nat)
    requires k < |Chunks(indices)| && l < |Chunks(indices)[k]|
    ensures 6 * k + l < |indices| && Chunks(indices)[k][l] == indices[6 * k + l]
  {
    if k > 0 {
      var rest := indices[6..];
      PhotoOfChunk(rest, k - 1, l);
      assert Chunks(indices)[k] == Chunks(rest)[k - 1];
      assert rest[6 * (k - 1) + l] == indices[6 * k + l];
    }
  }

  /** The pass fails exactly when a call does or a reply has an index that cannot be read. */
  ghost predicate Fails(replies: seq<Option<Reply>>, n: nat)
    requires n <= |replies|
  {
    exists k :: 0 <= k < n && (replies[k].None? || HasBadIndex(replies[k].value.images))
  }

  ghost predicate HasBadIndex(items: seq<Item<Image>>) {
    exists i :: 0 <= i < |items| && items[i].Dict? && items[i].value.index.NotInt?
  }

  /** The images and persons are what the reply to the chunk comes to. */
  ghost predicate PartIs(chunk: seq<nat>, reply: Option<Reply>, images: seq<Image>, persons: seq<Person>) {
    reply.Some? &&
    (exists ix :: ImagesAre(chunk, reply.value.images, |reply.value.images|, ix, images)) &&
    (exists ix :: PersonsAre(chunk, reply.value.persons, |reply.value.persons|, ix, persons))
  }

  ghost predicate PartsAre(chunks: seq<seq<nat>>, replies: seq<Option<Reply>>, n: nat,
                           images: seq<seq<Image>>, persons: seq<seq<Person>>)
    requires n <= |chunks| == |replies|
  {
    |images| == |persons| == n &&
    forall k :: 0 <= k < n ==> PartIs(chunks[k], replies[k], images[k], persons[k])
  }

  lemma MergeOfMore(chunks: seq<seq<nat>>, replies: seq<Option<Reply>>, k: nat)
    requires k < |chunks| == |replies|
    ensures var front := MergeReplies(chunks[..k], replies[..k]);
            MergeReplies(chunks[..k + 1], replies[..k + 1]) ==
            if front.None? || replies[k].None? || RemapImages(chunks[k], replies[k].value.images).None? then None
            else Some(Merged(front.value.images + RemapImages(chunks[k], replies[k].value.images).value,
                             front.value.persons + RemapPersons(chunks[k], replies[k].value.persons)))
  {
    assert chunks[..k + 1][..k] == chunks[..k] && replies[..k + 1][..k] == replies[..k];
  }

  lemma ReplyIs(chunk: seq<nat>, reply: Reply)
    ensures RemapImages(chunk, reply.images).None? <==> HasBadIndex(reply.images)
    ensures RemapImages(chunk, reply.images).Some? ==>
              PartIs(chunk, Some(reply), RemapImages(chunk, reply.images).value, RemapPersons(chunk, reply.persons))
  {
    assert reply.images[..|reply.images|] == reply.images && reply.persons[..|reply.persons|] == reply.persons;
    ReplyFails(chunk, reply.images, |reply.images|);
    if RemapImages(chunk, reply.images).Some? {
      var ix := ImagesOfReply(chunk, reply.images, |reply.images|);
      var jx := PersonsOfReply(chunk, reply.persons, |reply.persons|);
    }
  }

  lemma {:induction false} PassFails(chunks: seq<seq<nat>>, replies: seq<Option<Reply>>, n: nat)
    requires n <= |chunks| == |replies|
    ensures MergeReplies(chunks[..n], replies[..n]).None? <==> Fails(replies, n)
  {
    if n > 0 {
      var k := n - 1;
      PassFails(chunks, replies, k);
      MergeOfMore(chunks, replies, k);
      if replies[k].Some? { ReplyIs(chunks[k], replies[k].value); }
      assert k + 1 == n;
    }
  }

  /** When it does not fail, the pass gives the images and the persons of all the replies, chunk after chunk. */
  lemma {:induction false} PassIs(chunks: seq<seq<nat>>, replies: seq<Option<Reply>>, n: nat)
    returns (images: seq<seq<Image>>, persons: seq<seq<Person>>)
    requires n <= |chunks| == |replies| && MergeReplies(chunks[..n], replies[..n]).Some?
    ensures PartsAre(chunks, replies, n, images, persons)
    ensures MergeReplies(chunks[..n], replies[..n]) == Some(Merged(Concat(images), Concat(persons)))
  {
    images, persons := [], [];
    if n > 0 {
      var k := n - 1;
      MergeOfMore(chunks, replies, k);
      images, persons := PassIs(chunks, replies, k);
      var reply := replies[k].value;
      ReplyIs(chunks[k], reply);
      var more, found := RemapImages(chunks[k], reply.images).value, RemapPersons(chunks[k], reply.persons);
      ConcatSnoc(images, more);
      ConcatSnoc(persons, found);
      assert k + 1 == n;
      images, persons := images + [more], persons + [found];
    }
  }

  /** Of the whole pass: it fails exactly when a call does or an index cannot be read, and else gives what the replies
      come to; photo number l of chunk k is orphan number 6 * k + l. */
  lemma SecondPassIs(indices: seq<nat>, replies: seq<Option<Reply>>)
    returns (images: seq<seq<Image>>, persons: seq<seq<Person>>)
    requires |replies| == |Chunks(indices)|
    ensures MergeReplies(Chunks(indices), replies).None? <==> Fails(replies, |replies|)
    ensures !Fails(replies, |replies|) ==>
              PartsAre(Chunks(indices), replies, |replies|, images, persons) &&
              MergeReplies(Chunks(indices), replies) == Some(Merged(Concat(images), Concat(persons)))
  {
    var chunks := Chunks(indices);
    assert chunks[..|replies|] == chunks && replies[..|replies|] == replies;
    PassFails(chunks, replies, |replies|);
    images, persons := [], [];
    if !Fails(replies, |replies|) { images, persons := PassIs(chunks, replies, |replies|); }
  }

  // ---------------------------------------------------------------- persons that are merged

  /** One of the persons has the same document number; without one, the same surname. */
  ghost predicate IsThere(read: Reader, merged: seq<Person>, p: Person) {
    if read(p).document != "" then exists i :: 0 <= i < |merged| && read(merged[i]).document == read(p).document
    else read(p).surname != "" && exists i :: 0 <= i < |merged| && read(merged[i]).surname == read(p).surname
  }

  ghost function NewLaw(read: Reader, known: seq<Person>, extra: seq<Person>): nat -> bool {
    (k: nat) => k < |extra| && !IsThere(read, AddAll(read, known, extra[..k]), extra[k])
  }

  /** Appended is, of each further person in turn, just the one that is not there yet. */
  lemma {:induction false} AppendedAre(read: Reader, known: seq<Person>, extra: seq<Person>, n: nat)
    returns (ix: seq<nat>)
    requires n <= |extra|
    ensures Picks(ix, NewLaw(read, known, extra), n)
    ensures var merged := AddAll(read, known, extra[..n]);
            |merged| == |known| + |ix| && known <= merged &&
            forall a :: 0 <= a < |ix| ==> ix[a] < n && merged[|known| + a] == extra[ix[a]]
  {
    ix := [];
    if n > 0 {
      var k := n - 1;
      ix := AppendedAre(read, known, extra, k);
      assert extra[..n] == extra[..k] + [extra[k]];
      AddAllNext(read, known, extra[..k], extra[k]);
      PicksMore(ix, NewLaw(read, known, extra), k);
      ThereIff(read, AddAll(read, known, extra[..k]), extra[k]);
      if !IsThere(read, AddAll(read, known, extra[..k]), extra[k]) { ix := ix + [k]; }
      assert k + 1 == n;
    } else {
      assert extra[..0] == [];
    }
  }

  lemma ThereIff(read: Reader, merged: seq<Person>, p: Person)
    ensures Recognised(read, merged, read(p)) <==> IsThere(read, merged, p)
  {
  }

  /** The persons of a list are its dicts, in order. */
  lemma {:induction false} DictsAre(items: seq<Item<Person>>, n: nat) returns (ix: seq<nat>)
    requires n <= |items|
    ensures Picks(ix, DictLaw(items), n) && |Dicts(items[..n])| == |ix|
    ensures forall a :: 0 <= a < |ix| ==> ix[a] < n && items[ix[a]] == Dict(Dicts(items[..n])[a])
  {
    ix := [];
    if n > 0 {
      var k := n - 1;
      ix := DictsAre(items, k);
      DictsNext(items, k);
      PicksMore(ix, DictLaw(items), k);
      if items[k].Dict? { ix := ix + [k]; }
      assert k + 1 == n;
    }
  }

  /** The standard keys: two surnames are one when they agree up to outer whitespace and case, and one is blank
      when it is all whitespace. */
  lemma StandardKeys(normalize: string -> string, p: Person, q: Person)
    ensures var read := Standard(normalize);
            read(p).document == normalize(p.document) &&
            (read(p).surname == read(q).surname <==> Lower(Strip(p.surnames)) == Lower(Strip(q.surnames))) &&
            (read(p).surname == "" <==> AllSpace(p.surnames))
  {
    var a, b := Strip(p.surnames), Strip(q.surnames);
    StripIsBlank(p.surnames);
    if Upper(a) == Upper(b) {
      assert |Upper(a)| == |a| && |Upper(b)| == |b|;
      forall i | 0 <= i < |a| ensures LowerChar(a[i]) == LowerChar(b[i]) { assert Upper(a)[i] == Upper(b)[i]; }
    }
    if Lower(a) == Lower(b) {
      assert |Lower(a)| == |a| && |Lower(b)| == |b|;
      forall i | 0 <= i < |a| ensures UpperChar(a[i]) == UpperChar(b[i]) { assert Lower(a)[i] == Lower(b)[i]; }
    }
    assert Upper(a) == "" <==> a == "" by { assert |Upper(a)| == |a|; }
  }
}
