/** The enrichment client and the filter engine. Enrichment copies score,
    comment count and flair from each post's thread listing when the listing
    call succeeds and leaves the post alone otherwise. Filtering keeps the
    posts that pass four checks (excluded title keywords, flair lists, a
    comment threshold, a comment-to-score ratio) and sorts them by comment
    count, highest first, ties in input order. */
module Filter {
  import opened Common
  import opened Records
  import StableSort

  const MinComments: int := 50
  const EpisodeMinComments: int := 20

  const ExcludedKeywords: seq<string> := [
    "trailer", "teaser", "first look", "cast", "casting", "renewed", "cancelled",
    "canceled", "streaming on", "coming to", "moves to", "premiere date", "release date"]

  const AllowedFlairs: seq<string> := [
    "discussion", "review", "episode discussion", "weekly rec thread", "official"]

  const BlockedFlairs: seq<string> := ["trailer", "casting", "news", "premiere date"]

  // ---------------------------------------------------------------------
  // Episode detection: S\d{1,2}E\d{1,2} | Episode \d+ | Season \d+, any case

  /** The episode pattern matches at position i of an already lower-cased
      string (only the first digit of each number matters for a search). */
  predicate EpisodeAt(t: string, i: int)
  {
    0 <= i < |t| &&
    ( (t[i] == 's' && i + 1 < |t| && IsDigit(t[i + 1])
        && ((i + 3 < |t| && t[i + 2] == 'e' && IsDigit(t[i + 3]))
            || (i + 4 < |t| && IsDigit(t[i + 2]) && t[i + 3] == 'e' && IsDigit(t[i + 4]))))
    || (OccursAt(t, "episode ", i) && i + 8 < |t| && IsDigit(t[i + 8]))
    || (OccursAt(t, "season ", i) && i + 7 < |t| && IsDigit(t[i + 7])) )
  }

  /** EPISODE_RE.search(s) succeeds. */
  predicate HasEpisodeMarker(s: string)
  {
    exists i :: 0 <= i < |s| && EpisodeAt(Lower(s), i)
  }

  /** _is_episode_discussion. */
  predicate IsEpisodeDiscussion(p: Post)
  {
    HasEpisodeMarker(p.title) || HasEpisodeMarker(p.flair)
    || Contains(Lower(p.flair), "episode discussion")
  }

  // ---------------------------------------------------------------------
  // The four checks, in the order the filter applies them

  predicate KeywordExcluded(p: Post)
  {
    exists k :: 0 <= k < |ExcludedKeywords| && Contains(Lower(p.title), ExcludedKeywords[k])
  }

  /** A non-empty flair must not be blocked and must be allowed. */
  predicate FlairExcluded(p: Post)
  {
    p.flair != [] && (Lower(p.flair) in BlockedFlairs || Lower(p.flair) !in AllowedFlairs)
  }

  function Threshold(p: Post): int
  {
    if IsEpisodeDiscussion(p) then EpisodeMinComments else MinComments
  }

  /** A comment count known to be below the threshold; 0 means "not known". */
  predicate LowComments(p: Post)
  {
    0 < p.numComments < Threshold(p)
  }

  /** num_comments / score < 0.1 for a non-episode post with a positive
      score, stated on integers as 10 * num_comments < score. */
  predicate LowRatio(p: Post)
  {
    !IsEpisodeDiscussion(p) && p.score > 0 && 10 * p.numComments < p.score
  }

  predicate Keep(p: Post)
  {
    !KeywordExcluded(p) && !FlairExcluded(p) && !LowComments(p) && !LowRatio(p)
  }

  /** The posts that pass every check, in input order. */
  function Kept(posts: seq<Post>): seq<Post>
  {
    FilterSeq(Keep, posts)
  }

  function NumCommentsKey(p: Post): int { p.numComments }

  /** What filter_posts returns. */
  function FilterSpec(posts: seq<Post>): seq<Post>
  {
    StableSort.SortDesc(Kept(posts), NumCommentsKey)
  }

  /** filter_posts: the loop that skips failing posts, then the sort. */
  method FilterPosts(posts: seq<Post>) returns (filtered: seq<Post>)
    ensures filtered == FilterSpec(posts)
  {
    filtered := [];
    for k := 0 to |posts|
      invariant filtered == Kept(posts[..k])
    {
      var post := posts[k];
      assert posts[..k + 1][..k] == posts[..k];
      // 1. keywords
      var titleLower := Lower(post.title);
      if exists j | 0 <= j < |ExcludedKeywords| :: Contains(titleLower, ExcludedKeywords[j]) {
        continue;
      }
      // 2. flair
      var flairLower := Lower(post.flair);
      if post.flair != [] {
        if flairLower in BlockedFlairs {
          continue;
        }
        if |AllowedFlairs| > 0 && flairLower !in AllowedFlairs {
          continue;
        }
      }
      // 3. comment count, with the lower threshold for episode discussions
      var isEpisode := IsEpisodeDiscussion(post);
      var threshold := if isEpisode then EpisodeMinComments else MinComments;
      if post.numComments > 0 && post.numComments < threshold {
        continue;
      }
      // 4. engagement ratio, skipped for episode discussions
      if !isEpisode && post.score > 0 {
        if 10 * post.numComments < post.score {
          continue;
        }
      }
      assert Keep(post);
      filtered := filtered + [post];
    }
    assert posts[..|posts|] == posts;
    filtered := StableSort.SortDesc(filtered, NumCommentsKey);
  }

  // ---------------------------------------------------------------------
  // Properties of the filter

  /** Kept holds exactly the passing posts, each as often as in the input,
      and nothing else. */
  lemma KeptCounts(posts: seq<Post>)
    ensures forall p :: multiset(Kept(posts))[p] == if Keep(p) then multiset(posts)[p] else 0
  {
    FilterSeqCounts(Keep, posts);
  }

  lemma KeptAllPass(posts: seq<Post>)
    ensures forall p :: p in Kept(posts) ==> Keep(p) && p in posts
  {
    FilterSeqAllPass(Keep, posts);
  }

  lemma KeptOfPassing(posts: seq<Post>)
    requires forall i :: 0 <= i < |posts| ==> Keep(posts[i])
    ensures Kept(posts) == posts
  {
    FilterSeqOfPassing(Keep, posts);
  }

  /** The result is exactly the passing posts: each passing post as often as
      in the input, sorted by comment count, highest first, with posts of equal
      count in their input order. */
  lemma FilterSpecExactly(posts: seq<Post>)
    ensures forall p :: multiset(FilterSpec(posts))[p] == if Keep(p) then multiset(posts)[p] else 0
    ensures StableSort.SortedDesc(FilterSpec(posts), NumCommentsKey)
    ensures forall n :: StableSort.WithKey(FilterSpec(posts), NumCommentsKey, n)
                        == StableSort.WithKey(Kept(posts), NumCommentsKey, n)
  {
    StableSort.SortDescProps(Kept(posts), NumCommentsKey);
    KeptCounts(posts);
  }

  /** Every post of the result passes all four checks. */
  lemma FilterSpecAllPass(posts: seq<Post>)
    ensures forall p :: p in FilterSpec(posts) ==> Keep(p) && p in posts
  {
    StableSort.SortDescProps(Kept(posts), NumCommentsKey);
    KeptAllPass(posts);
    forall p | p in FilterSpec(posts) ensures Keep(p) && p in posts {
      assert p in multiset(FilterSpec(posts));
      assert p in multiset(Kept(posts));
    }
  }

  /** Filtering a filtered list changes nothing. */
  lemma FilterIdempotent(posts: seq<Post>)
    ensures FilterSpec(FilterSpec(posts)) == FilterSpec(posts)
  {
    var f := FilterSpec(posts);
    FilterSpecAllPass(posts);
    FilterSpecExactly(posts);
    KeptOfPassing(f);
    StableSort.SortDescOfSorted(f, NumCommentsKey);
  }

  /** Keyword matching is on substrings: "broadcaster" contains "cast". */
  lemma KeywordIsSubstring(p: Post)
    requires p.title == "Broadcaster"
    ensures KeywordExcluded(p) && !Keep(p)
  {
    assert Lower(p.title) == "broadcaster";
    assert OccursAt("broadcaster", "cast", 5);
    assert ExcludedKeywords[3] == "cast";
  }

  /** An empty flair never removes a post; a non-empty one survives exactly
      when its lower-case form is allowed and not blocked. */
  lemma FlairRule(p: Post)
    ensures p.flair == [] ==> !FlairExcluded(p)
    ensures p.flair != [] ==>
              (!FlairExcluded(p) <==> Lower(p.flair) !in BlockedFlairs && Lower(p.flair) in AllowedFlairs)
  {
  }

  /** The threshold is 20 for episode discussions and 50 otherwise, and only
      a known count (above 0) can be too low. */
  lemma CommentRule(p: Post)
    ensures Threshold(p) == (if IsEpisodeDiscussion(p) then 20 else 50)
    ensures LowComments(p) <==> 0 < p.numComments < Threshold(p)
    ensures p.numComments <= 0 ==> !LowComments(p)
  {
  }

  /** The ratio check never removes a post with no score or an episode
      discussion. */
  lemma RatioRule(p: Post)
    ensures p.score <= 0 ==> !LowRatio(p)
    ensures IsEpisodeDiscussion(p) ==> !LowRatio(p)
    ensures !IsEpisodeDiscussion(p) && p.score > 0 ==> (LowRatio(p) <==> 10 * p.numComments < p.score)
  {
  }

  /** A post whose enrichment failed (no flair, no comment count) survives the
      flair and comment checks. */
  lemma UnenrichedSurvivesFlairAndCount(p: Post)
    requires p.flair == [] && p.numComments == 0
    ensures !FlairExcluded(p) && !LowComments(p)
  {
  }

  lemma EpisodeExample(p: Post)
    requires p.title == "Show S1E02"
    ensures IsEpisodeDiscussion(p) && Threshold(p) == 20
  {
    assert Lower(p.title) == "show s1e02";
    assert EpisodeAt(Lower(p.title), 5);
  }

  // ---------------------------------------------------------------------
  // Enrichment

  /** The "data" record of the thread's first listing child. `None` stands
      for a missing key; the flair's `or ""` also treats a JSON null as
      missing. */
  datatype ThreadData = ThreadData(score: Option<int>, numComments: Option<int>, linkFlairText: Option<string>)

  /** The body of a 200 reply: not JSON, JSON that is not a non-empty list,
      a list whose data[0]["data"]["children"][0]["data"] lookup raises, or
      the thread's data. */
  datatype ThreadBody = Undecodable | NotThreadList | ThreadMissing | Thread(data: ThreadData)

  /** One enrichment call: the request raised, or a reply with its status. */
  datatype EnrichResponse = EnrichRaised | EnrichReply(status: int, body: ThreadBody)

  /** The effect of one call on its post. */
  function EnrichOne(p: Post, r: EnrichResponse): Post
  {
    match r
    case EnrichReply(200, Thread(d)) =>
      p.(score := if d.score.Some? then d.score.value else 0,
         numComments := if d.numComments.Some? then d.numComments.value else 0,
         flair := Strip(if d.linkFlairText.Some? then d.linkFlairText.value else ""))
    case _ => p
  }

  /** enrich_posts: one call per post, in order; `responses[i]` is what the
      call for `posts[i]` produced. */
  method EnrichPosts(posts: seq<Post>, responses: seq<EnrichResponse>) returns (enriched: seq<Post>)
    requires |responses| == |posts|
    ensures |enriched| == |posts|
    ensures forall i :: 0 <= i < |posts| ==> enriched[i] == EnrichOne(posts[i], responses[i])
  {
    enriched := [];
    for k := 0 to |posts|
      invariant |enriched| == k
      invariant forall i :: 0 <= i < k ==> enriched[i] == EnrichOne(posts[i], responses[i])
    {
      var post := posts[k];
      match responses[k] {
        case EnrichRaised =>
        case EnrichReply(status, body) =>
          if status == 200 && body.Thread? {
            var d := body.data;
            var score := if d.score.Some? then d.score.value else 0;
            var numComments := if d.numComments.Some? then d.numComments.value else 0;
            var flair := Strip(if d.linkFlairText.Some? then d.linkFlairText.value else "");
            post := post.(score := score, numComments := numComments, flair := flair);
          }
      }
      assert post == EnrichOne(posts[k], responses[k]);
      enriched := enriched + [post];
    }
  }

  /** A call that raised, a non-200 status or an unusable body leaves the
      post as it was; a thread reply sets score, comment count and the
      stripped flair, with 0 and "" for what the thread lacks. Identity,
      title, author and comments never change. */
  lemma EnrichOneSpec(p: Post, r: EnrichResponse)
    ensures var q := EnrichOne(p, r);
      q.id == p.id && q.title == p.title && q.url == p.url && q.author == p.author
      && q.created == p.created && q.subreddit == p.subreddit && q.comments == p.comments
      && q.commentsDegraded == p.commentsDegraded
    ensures !(r.EnrichReply? && r.status == 200 && r.body.Thread?) ==> EnrichOne(p, r) == p
    ensures r.EnrichReply? && r.status == 200 && r.body.Thread? ==>
      var d := r.body.data;
      EnrichOne(p, r).score == (if d.score.Some? then d.score.value else 0)
      && EnrichOne(p, r).numComments == (if d.numComments.Some? then d.numComments.value else 0)
      && EnrichOne(p, r).flair == (if d.linkFlairText.Some? then Strip(d.linkFlairText.value) else "")
  {
  }

  /** enrich_and_filter. */
  method EnrichAndFilter(posts: seq<Post>, responses: seq<EnrichResponse>) returns (result: seq<Post>)
    requires |responses| == |posts|
    ensures exists enriched :: |enriched| == |posts|
              && (forall i :: 0 <= i < |posts| ==> enriched[i] == EnrichOne(posts[i], responses[i]))
              && result == FilterSpec(enriched)
  {
    var enriched := EnrichPosts(posts, responses);
    result := FilterPosts(enriched);
  }
}
