/** The second OCR pass over photos that were matched to no guest, and the merge of its persons. */
module DocumentOcr {
  import opened Wrappers

  const ORPHAN_CHUNK_SIZE: nat := 6

  // ---------------------------------------------------------------- replies

  /** A value where an index is expected: absent, an integer, or something `int` refuses. */
  datatype Number = Absent | Int(value: int) | NotInt

  datatype Image = Image(index: Number, text: string)

  datatype Person = Person(document: string, surnames: string, front: Number, back: Number)

  /** An element of a reply's list that is a dict, or is not one. */
  datatype Item<T> = Dict(value: T) | Other

  datatype Reply = Reply(images: seq<Item<Image>>, persons: seq<Item<Person>>)

  datatype Merged = Merged(images: seq<Image>, persons: seq<Person>)

  // ---------------------------------------------------------------- chunks

  function Chunks(indices: seq<nat>): (r: seq<seq<nat>>) {
    if indices == [] then []
    else if |indices| <= ORPHAN_CHUNK_SIZE then [indices]
    else [indices[..ORPHAN_CHUNK_SIZE]] + Chunks(indices[ORPHAN_CHUNK_SIZE..])
  }

  function Concat<T>(parts: seq<seq<T>>): seq<T> {
    if parts == [] then [] else parts[0] + Concat(parts[1..])
  }

  /** The chunks are the orphan indices cut into non-empty pieces of at most six. */
  lemma {:induction false} ChunksConcat(indices: seq<nat>)
    ensures Concat(Chunks(indices)) == indices
    ensures forall k :: 0 <= k < |Chunks(indices)| ==> 0 < |Chunks(indices)[k]| <= ORPHAN_CHUNK_SIZE
  {
    if |indices| > ORPHAN_CHUNK_SIZE {
      var rest := indices[ORPHAN_CHUNK_SIZE..];
      ChunksConcat(rest);
      assert ([indices[..ORPHAN_CHUNK_SIZE]] + Chunks(rest))[1..] == Chunks(rest);
    } else if indices != [] {
      assert Concat([indices][1..]) == [];
    }
  }

  lemma SliceOfTail(s: seq<nat>, n: nat, start: nat, end: nat)
    requires n <= |s| && start <= end <= |s| - n
    ensures s[n..][start..end] == s[start + n..end + n]
  {
  }

  lemma {:induction false} ChunkAt(indices: seq<nat>, k: nat)
    requires ORPHAN_CHUNK_SIZE * k < |indices|
    ensures k < |Chunks(indices)|
    ensures var start := ORPHAN_CHUNK_SIZE * k;
            Chunks(indices)[k] ==
                indices[start..if start + ORPHAN_CHUNK_SIZE <= |indices| then start + ORPHAN_CHUNK_SIZE else |indices|]
  {
    if k > 0 {
      var rest := indices[ORPHAN_CHUNK_SIZE..];
      var start := ORPHAN_CHUNK_SIZE * (k - 1);
      assert ORPHAN_CHUNK_SIZE * k == start + ORPHAN_CHUNK_SIZE;
      ChunkAt(rest, k - 1);
      var end := if start + ORPHAN_CHUNK_SIZE <= |rest| then start + ORPHAN_CHUNK_SIZE else |rest|;
      SliceOfTail(indices, ORPHAN_CHUNK_SIZE, start, end);
      assert Chunks(indices)[k] == Chunks(rest)[k - 1];
    }
  }

  lemma {:induction false} ChunkCount(indices: seq<nat>, k: nat)
    requires ORPHAN_CHUNK_SIZE * k >= |indices| && (k > 0 ==> ORPHAN_CHUNK_SIZE * (k - 1) < |indices|)
    ensures |Chunks(indices)| == k
  {
    if k > 1 {
      ChunkCount(indices[ORPHAN_CHUNK_SIZE..], k - 1);
    }
  }

  // ---------------------------------------------------------------- one reply

  /** `int(item.get("index", -1))`; none is the exception. */
  function LocalIndex(n: Number): Option<int> {
    match n
    case Absent => Some(-1)
    case Int(v) => Some(v)
    case NotInt => None
  }

  predicate InChunk(chunk: seq<nat>, local: int) { 0 <= local < |chunk| }

  /** The images of a reply with their original indices; none when an index cannot be read. */
  function RemapImages(chunk: seq<nat>, items: seq<Item<Image>>): Option<seq<Image>> {
    if items == [] then Some([])
    else
      var front, last := RemapImages(chunk, items[..|items| - 1]), items[|items| - 1];
      if front.None? || last.Other? then front
      else
        match LocalIndex(last.value.index)
        case None => None
        case Some(local) =>
          if InChunk(chunk, local) then Some(front.value + [last.value.(index := Int(chunk[local]))]) else front
  }

  function RemapNumber(chunk: seq<nat>, n: Number): Number {
    if n.Int? && InChunk(chunk, n.value) then Int(chunk[n.value]) else n
  }

  function RemapPerson(chunk: seq<nat>, p: Person): Person {
    p.(front := RemapNumber(chunk, p.front), back := RemapNumber(chunk, p.back))
  }

  function RemapPersons(chunk: seq<nat>, items: seq<Item<Person>>): seq<Person> {
    if items == [] then []
    else
      var last := items[|items| - 1];
      RemapPersons(chunk, items[..|items| - 1]) + if last.Dict? then [RemapPerson(chunk, last.value)] else []
  }

  /** All chunks, each with its reply; none is an exception from the call or from an index. */
  function MergeReplies(chunks: seq<seq<nat>>, replies: seq<Option<Reply>>): Option<Merged>
    requires |chunks| == |replies|
  {
    if chunks == [] then Some(Merged([], []))
    else
      var n := |chunks| - 1;
      var front := MergeReplies(chunks[..n], replies[..n]);
      if front.None? || replies[n].None? then None
      else
        var images := RemapImages(chunks[n], replies[n].value.images);
        if images.None? then None
        else Some(Merged(front.value.images + images.value,
                         front.value.persons + RemapPersons(chunks[n], replies[n].value.persons)))
  }

  // ---------------------------------------------------------------- the indices

  /** The original index of a merged image. */
  function Indices(images: seq<Image>): seq<Number> {
    seq(|images|, i requires 0 <= i < |images| => images[i].index)
  }

  function AsNumbers(indices: seq<nat>): seq<Number> {
    seq(|indices|, i requires 0 <= i < |indices| => Int(indices[i]))
  }

  lemma IndicesConcat(a: seq<Image>, b: seq<Image>)
    ensures Indices(a + b) == Indices(a) + Indices(b)
  {
  }

  lemma NumbersConcat(a: seq<nat>, b: seq<nat>)
    ensures AsNumbers(a + b) == AsNumbers(a) + AsNumbers(b)
  {
  }

  ghost predicate AllFrom(images: seq<Image>, indices: seq<nat>) {
    forall k :: 0 <= k < |images| ==> images[k].index.Int? && images[k].index.value in indices
  }

  lemma {:induction false} RemappedAreInChunk(chunk: seq<nat>, items: seq<Item<Image>>)
    requires RemapImages(chunk, items).Some?
    ensures AllFrom(RemapImages(chunk, items).value, chunk)
  {
    if items != [] { RemappedAreInChunk(chunk, items[..|items| - 1]); }
  }

  lemma {:induction false} ConcatSnoc<T>(parts: seq<seq<T>>, last: seq<T>)
    ensures Concat(parts + [last]) == Concat(parts) + last
  {
    if parts == [] {
      assert Concat([last][1..]) == [];
      assert [] + [last] == [last];
    } else {
      assert (parts + [last])[1..] == parts[1..] + [last];
      ConcatSnoc(parts[1..], last);
    }
  }

  lemma FromMore(images: seq<Image>, more: seq<Image>, a: seq<nat>, b: seq<nat>)
    requires AllFrom(images, a) && AllFrom(more, b)
    ensures AllFrom(images + more, a + b)
  {
  }

  lemma {:induction false} MergedAreFrom(chunks: seq<seq<nat>>, replies: seq<Option<Reply>>)
    requires |chunks| == |replies| && MergeReplies(chunks, replies).Some?
    ensures AllFrom(MergeReplies(chunks, replies).value.images, Concat(chunks))
  {
    if chunks != [] {
      var n := |chunks| - 1;
      MergedAreFrom(chunks[..n], replies[..n]);
      RemappedAreInChunk(chunks[n], replies[n].value.images);
      ConcatSnoc(chunks[..n], chunks[n]);
      assert chunks == chunks[..n] + [chunks[n]];
      FromMore(MergeReplies(chunks[..n], replies[..n]).value.images,
               RemapImages(chunks[n], replies[n].value.images).value,
               Concat(chunks[..n]), chunks[n]);
    }
  }

  /** Every merged image carries the index of an orphan photo. */
  lemma OnlyOrphans(indices: seq<nat>, replies: seq<Option<Reply>>)
    requires |Chunks(indices)| == |replies| && MergeReplies(Chunks(indices), replies).Some?
    ensures AllFrom(MergeReplies(Chunks(indices), replies).value.images, indices)
  {
    MergedAreFrom(Chunks(indices), replies);
    ChunksConcat(indices);
  }

  // ---------------------------------------------------------------- a permutation

  /** The local indices that a reply's rows name, when every row is a dict with an integer. */
  function Locals(items: seq<Item<Image>>): Option<seq<int>> {
    if items == [] then Some([])
    else
      var front, last := Locals(items[..|items| - 1]), items[|items| - 1];
      if front.Some? && last.Dict? && last.value.index.Int? then Some(front.value + [last.value.index.value]) else None
  }

  function UpTo(n: nat): (r: seq<int>)
    ensures |r| == n && forall i :: 0 <= i < n ==> r[i] == i
  {
    seq(n, i => i)
  }

  /** One row for each local index, in any order. */
  ghost predicate OneRowEach(chunk: seq<nat>, items: seq<Item<Image>>) {
    Locals(items).Some? && multiset(Locals(items).value) == multiset(UpTo(|chunk|))
  }

  /** What the rows' local indices become. */
  function Originals(chunk: seq<nat>, locals: seq<int>): seq<Number> {
    if locals == [] then []
    else
      var local := locals[|locals| - 1];
      Originals(chunk, locals[..|locals| - 1]) + if InChunk(chunk, local) then [Int(chunk[local])] else []
  }

  lemma {:induction false} RemappedIndices(chunk: seq<nat>, items: seq<Item<Image>>)
    requires Locals(items).Some?
    ensures RemapImages(chunk, items).Some? &&
            Indices(RemapImages(chunk, items).value) == Originals(chunk, Locals(items).value)
  {
    if items != [] {
      var n := |items| - 1;
      RemappedIndices(chunk, items[..n]);
      var locals := Locals(items).value;
      assert locals[..|locals| - 1] == Locals(items[..n]).value;
    }
  }

  lemma {:induction false} OriginalsConcat(chunk: seq<nat>, a: seq<int>, b: seq<int>)
    ensures Originals(chunk, a + b) == Originals(chunk, a) + Originals(chunk, b)
  {
    if b == [] {
      assert a + b == a;
    } else {
      assert (a + b)[..|a + b| - 1] == a + b[..|b| - 1];
      OriginalsConcat(chunk, a, b[..|b| - 1]);
    }
  }

  lemma TakenOut(a: seq<int>, x: int, b: seq<int>, front: seq<int>)
    requires multiset(front + [x]) == multiset(a + [x] + b)
    ensures multiset(front) == multiset(a + b)
  {
    assert multiset(front + [x]) == multiset(front) + multiset{x};
    assert multiset(a + [x] + b) == multiset(a) + multiset{x} + multiset(b);
    assert multiset(a + b) == multiset(a) + multiset(b);
    assert multiset(front) == multiset(front) + multiset{x} - multiset{x};
    assert multiset(a + b) == multiset(a) + multiset{x} + multiset(b) - multiset{x};
  }

  /** Only which local indices there are matters, not their order. */
  lemma {:induction false} OriginalsOfPermuted(chunk: seq<nat>, a: seq<int>, b: seq<int>)
    requires multiset(a) == multiset(b)
    ensures multiset(Originals(chunk, a)) == multiset(Originals(chunk, b))
  {
    if a == [] {
      assert |b| == |multiset(b)| == |multiset(a)| == 0;
    } else {
      var x, front := a[|a| - 1], a[..|a| - 1];
      assert a == front + [x];
      assert x in multiset(b);
      var j :| 0 <= j < |b| && b[j] == x;
      var rest := b[..j] + b[j + 1..];
      assert b == b[..j] + [x] + b[j + 1..];
      TakenOut(b[..j], x, b[j + 1..], front);
      OriginalsOfPermuted(chunk, front, rest);
      PulledOut(chunk, b[..j], x, b[j + 1..]);
      OriginalsConcat(chunk, front, [x]);
    }
  }

  lemma PulledOut(chunk: seq<nat>, a: seq<int>, x: int, b: seq<int>)
    ensures multiset(Originals(chunk, a + [x] + b)) ==
            multiset(Originals(chunk, a + b)) + multiset(Originals(chunk, [x]))
  {
    OriginalsConcat(chunk, a, [x]);
    OriginalsConcat(chunk, a + [x], b);
    OriginalsConcat(chunk, a, b);
  }

  lemma {:induction false} OriginalsOfAll(chunk: seq<nat>, n: nat)
    requires n <= |chunk|
    ensures Originals(chunk, UpTo(n)) == AsNumbers(chunk[..n])
  {
    if n > 0 {
      OriginalsOfAll(chunk, n - 1);
      assert UpTo(n)[..n - 1] == UpTo(n - 1);
    }
  }

  lemma ChunkIsPermuted(chunk: seq<nat>, items: seq<Item<Image>>)
    requires OneRowEach(chunk, items)
    ensures RemapImages(chunk, items).Some?
    ensures multiset(Indices(RemapImages(chunk, items).value)) == multiset(AsNumbers(chunk))
  {
    RemappedIndices(chunk, items);
    OriginalsOfPermuted(chunk, Locals(items).value, UpTo(|chunk|));
    OriginalsOfAll(chunk, |chunk|);
    assert chunk[..|chunk|] == chunk;
  }

  ghost predicate AllAnswered(chunks: seq<seq<nat>>, replies: seq<Option<Reply>>)
    requires |chunks| == |replies|
  {
    forall k :: 0 <= k < |chunks| ==> replies[k].Some? && OneRowEach(chunks[k], replies[k].value.images)
  }

  lemma PermutedNext(images: seq<Image>, more: seq<Image>, a: seq<nat>, b: seq<nat>)
    requires multiset(Indices(images)) == multiset(AsNumbers(a)) && multiset(Indices(more)) == multiset(AsNumbers(b))
    ensures multiset(Indices(images + more)) == multiset(AsNumbers(a + b))
  {
    IndicesConcat(images, more);
    NumbersConcat(a, b);
  }

  ghost predicate Permuted(merged: Option<Merged>, indices: seq<nat>) {
    merged.Some? && multiset(Indices(merged.value.images)) == multiset(AsNumbers(indices))
  }

  lemma LastPermuted(chunks: seq<seq<nat>>, replies: seq<Option<Reply>>, front: Option<Merged>, before: seq<nat>)
    requires chunks != [] && |chunks| == |replies|
    requires front == MergeReplies(chunks[..|chunks| - 1], replies[..|chunks| - 1]) && Permuted(front, before)
    requires replies[|chunks| - 1].Some? && OneRowEach(chunks[|chunks| - 1], replies[|chunks| - 1].value.images)
    ensures Permuted(MergeReplies(chunks, replies), before + chunks[|chunks| - 1])
  {
    var n := |chunks| - 1;
    var images := RemapImages(chunks[n], replies[n].value.images);
    ChunkIsPermuted(chunks[n], replies[n].value.images);
    PermutedNext(front.value.images, images.value, before, chunks[n]);
  }

  lemma AnsweredFront(chunks: seq<seq<nat>>, replies: seq<Option<Reply>>, n: nat)
    requires n <= |chunks| == |replies| && AllAnswered(chunks, replies)
    ensures AllAnswered(chunks[..n], replies[..n])
  {
    forall k | 0 <= k < n ensures replies[..n][k].Some? && OneRowEach(chunks[..n][k], replies[..n][k].value.images) {
      assert OneRowEach(chunks[k], replies[k].value.images);
    }
  }

  lemma {:induction false} AllPermuted(chunks: seq<seq<nat>>, replies: seq<Option<Reply>>)
    requires |chunks| == |replies| && AllAnswered(chunks, replies)
    ensures Permuted(MergeReplies(chunks, replies), Concat(chunks))
  {
    if chunks != [] {
      var n := |chunks| - 1;
      AnsweredFront(chunks, replies, n);
      AllPermuted(chunks[..n], replies[..n]);
      ConcatSnoc(chunks[..n], chunks[n]);
      assert chunks == chunks[..n] + [chunks[n]];
      LastPermuted(chunks, replies, MergeReplies(chunks[..n], replies[..n]), Concat(chunks[..n]));
    }
  }

  /** When every reply has one row per local index, the merged images are the orphan photos, each as
      often as it was asked for. */
  lemma OrphansArePermuted(indices: seq<nat>, replies: seq<Option<Reply>>)
    requires |Chunks(indices)| == |replies| && AllAnswered(Chunks(indices), replies)
    ensures MergeReplies(Chunks(indices), replies).Some?
    ensures multiset(Indices(MergeReplies(Chunks(indices), replies).value.images)) == multiset(AsNumbers(indices))
  {
    AllPermuted(Chunks(indices), replies);
    ChunksConcat(indices);
  }

  // ---------------------------------------------------------------- the loops of the pass

  method RemapImageList(chunk: seq<nat>, items: seq<Item<Image>>) returns (r: Option<seq<Image>>)
    ensures r == RemapImages(chunk, items)
  {
    var images := [];
    for i := 0 to |items|
      invariant RemapImages(chunk, items[..i]) == Some(images)
    {
      assert items[..i + 1][..i] == items[..i];
      match items[i] {
        case Other =>
        case Dict(image) =>
          var local := LocalIndex(image.index);
          if local.None? {
            RemapFails(chunk, items, i + 1);
            return None;
          }
          if InChunk(chunk, local.value) {
            images := images + [image.(index := Int(chunk[local.value]))];
          }
      }
    }
    assert items[..|items|] == items;
    return Some(images);
  }

  lemma {:induction false} RemapFails(chunk: seq<nat>, items: seq<Item<Image>>, i: nat)
    requires i <= |items| && RemapImages(chunk, items[..i]).None?
    ensures RemapImages(chunk, items).None?
  {
    if i == |items| {
      assert items[..i] == items;
    } else {
      assert items[..|items| - 1][..i] == items[..i];
      RemapFails(chunk, items[..|items| - 1], i);
    }
  }

  method RemapPersonList(chunk: seq<nat>, items: seq<Item<Person>>) returns (persons: seq<Person>)
    ensures persons == RemapPersons(chunk, items)
  {
    persons := [];
    for i := 0 to |items|
      invariant persons == RemapPersons(chunk, items[..i])
    {
      assert items[..i + 1][..i] == items[..i];
      if items[i].Dict? {
        var person := items[i].value;
        if person.front.Int? && InChunk(chunk, person.front.value) {
          person := person.(front := Int(chunk[person.front.value]));
        }
        if person.back.Int? && InChunk(chunk, person.back.value) {
          person := person.(back := Int(chunk[person.back.value]));
        }
        persons := persons + [person];
      }
    }
    assert items[..|items|] == items;
  }

  lemma {:induction false} MergeFails(chunks: seq<seq<nat>>, replies: seq<Option<Reply>>, k: nat)
    requires |chunks| == |replies| && k <= |chunks| && MergeReplies(chunks[..k], replies[..k]).None?
    ensures MergeReplies(chunks, replies).None?
  {
    var n := |chunks|;
    if k == n {
      assert chunks[..k] == chunks && replies[..k] == replies;
    } else {
      assert chunks[..n - 1][..k] == chunks[..k] && replies[..n - 1][..k] == replies[..k];
      MergeFails(chunks[..n - 1], replies[..n - 1], k);
    }
  }

  /** run_orphan_document_ocr; `replies` are what the calls for the chunks return or raise. */
  method RunOrphanDocumentOcr(indices: seq<nat>, replies: seq<Option<Reply>>) returns (r: Option<Merged>)
    requires |replies| == |Chunks(indices)|
    ensures r == MergeReplies(Chunks(indices), replies)
  {
    ghost var chunks := Chunks(indices);
    var images, persons := [], [];
    var start, k := 0, 0;
    while start < |indices|
      invariant start == ORPHAN_CHUNK_SIZE * k && (k > 0 ==> ORPHAN_CHUNK_SIZE * (k - 1) < |indices|)
      invariant k <= |chunks|
      invariant MergeReplies(chunks[..k], replies[..k]) == Some(Merged(images, persons))
      decreases |indices| - start
    {
      var end := if start + ORPHAN_CHUNK_SIZE <= |indices| then start + ORPHAN_CHUNK_SIZE else |indices|;
      var chunk := indices[start..end];
      ChunkAt(indices, k);
      assert chunks[..k + 1][..k] == chunks[..k] && replies[..k + 1][..k] == replies[..k];
      if replies[k].None? {
        MergeFails(chunks, replies, k + 1);
        return None;
      }
      var mapped := RemapImageList(chunk, replies[k].value.images);
      if mapped.None? {
        MergeFails(chunks, replies, k + 1);
        return None;
      }
      var found := RemapPersonList(chunk, replies[k].value.persons);
      images, persons := images + mapped.value, persons + found;
      start, k := start + ORPHAN_CHUNK_SIZE, k + 1;
    }
    ChunkCount(indices, k);
    assert chunks[..k] == chunks && replies[..k] == replies;
    return Some(Merged(images, persons));
  }
}
