/** The rolling memory of seen post ids and the deduplicator. The memory is a
    list of at most 200 ids, oldest first; loading it never fails (a missing or
    unreadable file, or one that does not hold a list, reads as no ids), and
    saving keeps only the newest 200. Deduplication drops every post whose id
    the memory holds and keeps the rest in order. */
module Dedup {
  import opened Common
  import opened Records

  const MaxSeenIds: nat := 200

  /** What json.load finds in the seen-ids file. */
  datatype StoredJson = JsonList(ids: seq<string>) | JsonNotList

  /** The seen-ids file: absent, present but unreadable or undecodable, or
      decoded. It is the only state this module keeps between runs. */
  datatype SeenIdsFile = Missing | Unreadable | Stored(json: StoredJson)

  // ---------------------------------------------------------------------
  // Loading and saving

  /** load_seen_ids. */
  function LoadSeenIds(f: SeenIdsFile): seq<string>
  {
    match f
    case Missing => []
    case Unreadable => []
    case Stored(JsonNotList) => []
    case Stored(JsonList(ids)) => ids
  }

  /** The ids save_seen_ids writes: the last 200 when there are more. */
  function SaveSeenIds(ids: seq<string>): seq<string>
  {
    if |ids| > MaxSeenIds then ids[|ids| - MaxSeenIds..] else ids
  }

  /** Loading fails soft: every failure reads as the empty list, and a stored
      list is returned as it is. */
  lemma LoadSeenIdsFailsSoft(f: SeenIdsFile)
    ensures f.Missing? || f.Unreadable? || f == Stored(JsonNotList) ==> LoadSeenIds(f) == []
    ensures f.Stored? && f.json.JsonList? ==> LoadSeenIds(f) == f.json.ids
  {
  }

  /** The stored window: at most 200 ids, a suffix of what was given, exactly
      the last 200 when more were given and all of them otherwise. */
  lemma SaveSeenIdsWindow(ids: seq<string>)
    ensures |SaveSeenIds(ids)| <= MaxSeenIds
    ensures SaveSeenIds(ids) == ids[|ids| - |SaveSeenIds(ids)|..]
    ensures |ids| > MaxSeenIds ==> |SaveSeenIds(ids)| == MaxSeenIds
    ensures |ids| <= MaxSeenIds ==> SaveSeenIds(ids) == ids
  {
  }

  /** Truncating on every save loses nothing a later save would keep: the
      window after appending to a saved window is the window of the whole
      history. */
  lemma SaveSeenIdsCompose(a: seq<string>, b: seq<string>)
    ensures SaveSeenIds(SaveSeenIds(a) + b) == SaveSeenIds(a + b)
  {
    if |a| > MaxSeenIds {
      var w := a[|a| - MaxSeenIds..];
      var n := |a + b|;
      assert |w + b| == MaxSeenIds + |b|;
      assert (w + b)[|w + b| - MaxSeenIds..] == (a + b)[n - MaxSeenIds..];
    }
  }

  // ---------------------------------------------------------------------
  // Deduplication

  function SeenSet(ids: seq<string>): set<string>
  {
    set id | id in ids
  }

  /** [p for p in posts if p["id"] not in seen]. */
  function Deduplicate(posts: seq<Post>, seen: set<string>): seq<Post>
  {
    if posts == [] then []
    else
      var last := posts[|posts| - 1];
      Deduplicate(posts[..|posts| - 1], seen) + (if last.id !in seen then [last] else [])
  }

  /** deduplicate: against the ids loaded from the file. */
  function DeduplicateRun(posts: seq<Post>, f: SeenIdsFile): seq<Post>
  {
    Deduplicate(posts, SeenSet(LoadSeenIds(f)))
  }

  /** The posts whose id is seen: what deduplication removes. */
  function SeenPosts(posts: seq<Post>, seen: set<string>): seq<Post>
  {
    if posts == [] then []
    else
      var last := posts[|posts| - 1];
      SeenPosts(posts[..|posts| - 1], seen) + (if last.id in seen then [last] else [])
  }

  /** `a` is `b` with some items left out. */
  predicate IsSubsequence<T(==)>(a: seq<T>, b: seq<T>)
    decreases |b|
  {
    if a == [] then true
    else if b == [] then false
    else (a[|a| - 1] == b[|b| - 1] && IsSubsequence(a[..|a| - 1], b[..|b| - 1]))
         || IsSubsequence(a, b[..|b| - 1])
  }

  /** Deduplication keeps exactly the posts with unseen ids, duplicates
      within the batch included: each post occurs as often as in the input if
      its id is unseen, and not at all otherwise. */
  lemma {:induction false} DeduplicateCounts(posts: seq<Post>, seen: set<string>)
    ensures forall p :: multiset(Deduplicate(posts, seen))[p]
                        == if p.id in seen then 0 else multiset(posts)[p]
  {
    if posts != [] {
      var init, last := posts[..|posts| - 1], posts[|posts| - 1];
      DeduplicateCounts(init, seen);
      assert posts == init + [last];
    }
  }

  lemma {:induction false} DeduplicateNoSeen(posts: seq<Post>, seen: set<string>)
    ensures forall i :: 0 <= i < |Deduplicate(posts, seen)| ==> Deduplicate(posts, seen)[i].id !in seen
  {
    if posts != [] {
      DeduplicateNoSeen(posts[..|posts| - 1], seen);
    }
  }

  /** The output keeps the input's order. */
  lemma {:induction false} DeduplicateIsSubsequence(posts: seq<Post>, seen: set<string>)
    ensures IsSubsequence(Deduplicate(posts, seen), posts)
  {
    if posts != [] {
      var init, last := posts[..|posts| - 1], posts[|posts| - 1];
      DeduplicateIsSubsequence(init, seen);
      var d := Deduplicate(init, seen);
      if last.id !in seen {
        assert (d + [last])[..|d|] == d;
      } else {
        assert Deduplicate(posts, seen) == d;
        assert d == [] || IsSubsequence(d, posts[..|posts| - 1]);
      }
    }
  }

  /** Deduplicating two batches one after the other gives the concatenation
      of the two results. */
  lemma {:induction false} DeduplicateAppend(a: seq<Post>, b: seq<Post>, seen: set<string>)
    ensures Deduplicate(a + b, seen) == Deduplicate(a, seen) + Deduplicate(b, seen)
    decreases |b|
  {
    if b == [] {
      assert a + b == a;
    } else {
      assert (a + b)[..|a + b| - 1] == a + b[..|b| - 1];
      DeduplicateAppend(a, b[..|b| - 1], seen);
    }
  }

  /** The logged removed count, input length minus output length, is the
      number of posts whose id was seen. */
  lemma {:induction false} RemovedCount(posts: seq<Post>, seen: set<string>)
    ensures |posts| - |Deduplicate(posts, seen)| == |SeenPosts(posts, seen)|
  {
    if posts != [] {
      RemovedCount(posts[..|posts| - 1], seen);
    }
  }

  /** [A, B, C] with B seen gives [A, C]. */
  lemma DeduplicateExample(a: Post, b: Post, c: Post)
    requires a.id != b.id && c.id != b.id
    ensures Deduplicate([a, b, c], SeenSet([b.id])) == [a, c]
  {
    var seen := SeenSet([b.id]);
    assert seen == {b.id};
    assert [a, b, c][..2] == [a, b];
    assert [a, b][..1] == [a];
    assert [a][..0] == [];
    assert Deduplicate([a], seen) == [a];
    assert Deduplicate([a, b], seen) == [a];
  }

  /** Two posts with the same unseen id both survive. */
  lemma DuplicatesInBatchKept(p: Post, q: Post, seen: set<string>)
    requires p.id == q.id && p.id !in seen
    ensures Deduplicate([p, q], seen) == [p, q]
  {
    assert [p, q][..1] == [p];
    assert [p][..0] == [];
    assert Deduplicate([p], seen) == [p];
  }
}
