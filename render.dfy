/** The renderer's data preparation: keyword sentiment and consensus over a
    post's comments, reading time, spoiler and creator tests, the catalyst
    comment, and the digest-wide figures (degraded mode, total comments, the
    hottest post, how many fetched posts were filtered out). The HTML
    template and the files it writes are not part of this model. */
module Render {
  import opened Common
  import opened Records

  const PositiveWords: set<string> := {
    "amazing", "masterpiece", "brilliant", "fantastic", "incredible", "love",
    "loved", "perfect", "excellent", "outstanding", "phenomenal", "superb",
    "beautiful", "gorgeous", "stunning", "best", "favorite", "favourite",
    "great", "wonderful", "awesome", "enjoy", "enjoyed", "impressive"}

  const NegativeWords: set<string> := {
    "terrible", "awful", "horrible", "disappointing", "boring", "worst",
    "hate", "hated", "trash", "garbage", "mediocre", "bad", "poor",
    "painful", "unwatchable", "cringe", "annoying", "overrated", "weak",
    "bland", "dull", "forgettable", "disaster", "ruined"}

  const MixedWords: set<string> := {
    "but", "however", "although", "conflicted", "mixed", "uneven",
    "inconsistent", "divisive", "controversial", "overrated"}

  const AgreeWords: set<string> := {
    "agree", "exactly", "this", "yes", "right", "same", "true", "absolutely", "definitely"}

  const DisagreeWords: set<string> := {
    "disagree", "wrong", "no", "nah", "nope", "but", "however", "actually"}

  const CreatorFlairKeywords: set<string> := {
    "creator", "showrunner", "writer", "director", "producer", "actor",
    "actress", "verified", "official", "staff", "crew", "show creator"}

  const SpoilerKeywords: set<string> := {
    "finale", "twist", "dies", "death", "killed", "ending", "spoiler",
    "reveal", "plot twist", "cliffhanger"}

  const WordsPerMinute: nat := 200

  // ---------------------------------------------------------------------
  // Word matches

  /** The number of distinct words of the body that are in `ws`. */
  function CommentMatches(c: Comment, ws: set<string>): nat
  {
    |WordSet(c.body) * ws|
  }

  /** The matches summed over the comments, each comment counting a word
      once. */
  function Matches(cs: seq<Comment>, ws: set<string>): nat
  {
    if cs == [] then 0 else Matches(cs[..|cs| - 1], ws) + CommentMatches(cs[|cs| - 1], ws)
  }

  lemma {:induction false} MatchesAppend(a: seq<Comment>, b: seq<Comment>, ws: set<string>)
    ensures Matches(a + b, ws) == Matches(a, ws) + Matches(b, ws)
    decreases |b|
  {
    if b == [] {
      assert a + b == a;
    } else {
      assert (a + b)[..|a + b| - 1] == a + b[..|b| - 1];
      MatchesAppend(a, b[..|b| - 1], ws);
    }
  }

  /** A comment adds at most the size of the word list, however often it
      repeats a word. */
  lemma {:induction false} MatchesBound(cs: seq<Comment>, ws: set<string>)
    ensures Matches(cs, ws) <= |cs| * |ws|
  {
    if cs != [] {
      var init, n := cs[..|cs| - 1], |ws|;
      MatchesBound(init, ws);
      CommentMatchesBound(cs[|cs| - 1], ws);
      assert Matches(cs, ws) <= |init| * n + n;
      MulStep(|init|, n);
    }
  }

  lemma CommentMatchesBound(c: Comment, ws: set<string>)
    ensures CommentMatches(c, ws) <= |ws|
  {
    SubsetCard(WordSet(c.body) * ws, ws);
  }

  lemma MulStep(a: nat, n: nat)
    ensures a * n + n == (a + 1) * n
  {
  }

  lemma SubsetCard(a: set<string>, b: set<string>)
    requires a <= b
    ensures |a| <= |b|
  {
    assert b == a + (b - a);
  }

  // ---------------------------------------------------------------------
  // Sentiment

  datatype Sentiment = Neutral | Positive | Negative | Mixed

  function SentimentLabel(s: Sentiment): string
  {
    match s
    case Neutral => "Neutral discussion"
    case Positive => "Positive vibes"
    case Negative => "Critical reception"
    case Mixed => "Mixed reactions"
  }

  function SentimentCss(s: Sentiment): string
  {
    match s
    case Neutral => "neutral"
    case Positive => "positive"
    case Negative => "negative"
    case Mixed => "mixed"
  }

  function Abs(x: int): nat { if x < 0 then -x else x }

  /** The classification cascade on the three counts. */
  function Classify(pos: nat, neg: nat, mix: nat): Sentiment
  {
    if pos + neg + mix == 0 then Neutral
    else if pos > neg * 2 && pos > mix then Positive
    else if neg > pos * 2 && neg > mix then Negative
    else if mix >= pos && mix >= neg then Mixed
    else if Abs(pos - neg) <= 2 then Mixed
    else if pos > neg then Positive
    else Negative
  }

  function SentimentOf(cs: seq<Comment>): Sentiment
  {
    if cs == [] then Neutral
    else Classify(Matches(cs, PositiveWords), Matches(cs, NegativeWords), Matches(cs, MixedWords))
  }

  /** _compute_sentiment: the counting loop, then the cascade (`Classify`). */
  method ComputeSentiment(cs: seq<Comment>) returns (s: Sentiment)
    ensures s == SentimentOf(cs)
  {
    if cs == [] {
      return Neutral;
    }
    var pos, neg, mix := CountMatches(cs);
    s := Classify(pos, neg, mix);
  }

  /** The counting loop: each comment's distinct words, against each list. */
  method CountMatches(cs: seq<Comment>) returns (pos: nat, neg: nat, mix: nat)
    ensures pos == Matches(cs, PositiveWords)
    ensures neg == Matches(cs, NegativeWords)
    ensures mix == Matches(cs, MixedWords)
  {
    pos, neg, mix := 0, 0, 0;
    for k := 0 to |cs|
      invariant pos == Matches(cs[..k], PositiveWords)
      invariant neg == Matches(cs[..k], NegativeWords)
      invariant mix == Matches(cs[..k], MixedWords)
    {
      assert cs[..k + 1][..k] == cs[..k];
      var words := WordSet(cs[k].body);
      pos := pos + |words * PositiveWords|;
      neg := neg + |words * NegativeWords|;
      mix := mix + |words * MixedWords|;
    }
    assert cs[..|cs|] == cs;
  }

  /** Neutral exactly when no word matched; a positive verdict means more
      positive words than negative and than mixed ones, and symmetrically for
      a negative one. */
  lemma ClassifySpec(pos: nat, neg: nat, mix: nat)
    ensures Classify(pos, neg, mix) == Neutral <==> pos + neg + mix == 0
    ensures Classify(pos, neg, mix) == Positive ==> pos > neg && pos > mix
    ensures Classify(pos, neg, mix) == Negative ==> neg > pos && neg > mix
    ensures Classify(pos, neg, mix) == Mixed ==> (mix >= pos && mix >= neg) || Abs(pos - neg) <= 2
    ensures pos > 2 * neg && pos > mix ==> Classify(pos, neg, mix) == Positive
    ensures neg > 2 * pos && neg > mix ==> Classify(pos, neg, mix) == Negative
  {
  }

  /** Swapping the positive and negative counts swaps the two verdicts. */
  lemma ClassifySwap(pos: nat, neg: nat, mix: nat)
    ensures Classify(pos, neg, mix) == Positive <==> Classify(neg, pos, mix) == Negative
    ensures Classify(pos, neg, mix) == Mixed <==> Classify(neg, pos, mix) == Mixed
  {
  }

  /** No comments, or comments without a single listed word, are neutral. */
  lemma SentimentNeutral(cs: seq<Comment>)
    ensures SentimentOf(cs) == Neutral <==>
              Matches(cs, PositiveWords) + Matches(cs, NegativeWords) + Matches(cs, MixedWords) == 0
  {
    if cs == [] {
      assert Matches(cs, PositiveWords) == 0 && Matches(cs, NegativeWords) == 0 && Matches(cs, MixedWords) == 0;
    } else {
      ClassifySpec(Matches(cs, PositiveWords), Matches(cs, NegativeWords), Matches(cs, MixedWords));
    }
  }

  // ---------------------------------------------------------------------
  // Consensus

  /** round(n / d) with ties to the even neighbour (Python's round), for
      d > 0, computed exactly. */
  function RoundHalfEven(n: int, d: int): int
    requires d > 0
  {
    var q, r := n / d, n % d;
    if 2 * r < d then q
    else if 2 * r > d then q + 1
    else if q % 2 == 0 then q
    else q + 1
  }

  /** The result is a nearest integer, and the even one on a tie. */
  lemma RoundHalfEvenSpec(n: int, d: int)
    requires d > 0
    ensures var p := RoundHalfEven(n, d);
      Abs(2 * (p * d - n)) <= d
      && (Abs(2 * (p * d - n)) == d ==> p % 2 == 0)
  {
    var q, r := n / d, n % d;
    assert n == q * d + r;
    var p := RoundHalfEven(n, d);
    if p == q {
      assert p * d - n == -r;
    } else {
      assert p * d == q * d + d;
      assert p * d - n == d - r;
    }
  }

  lemma RoundHalfEvenRange(n: int, d: int)
    requires d > 0 && 0 <= n <= d
    ensures 0 <= RoundHalfEven(100 * n, d) <= 100
  {
    var m := 100 * n;
    var q, r := m / d, m % d;
    assert m == q * d + r && 0 <= r < d;
    assert m <= 100 * d;
    QuotientBound(q, r, d, 100);
  }

  /** q * d + r between 0 and hi * d, with 0 <= r < d, puts q in 0..hi, and
      at hi leaves no remainder. */
  lemma QuotientBound(q: int, r: int, d: int, hi: nat)
    requires d > 0 && 0 <= r < d && 0 <= q * d + r <= hi * d
    ensures 0 <= q <= hi
    ensures q == hi ==> r == 0
  {
    assert (q + 1) * d == q * d + d;
    SignOfProduct(q + 1, d);
    assert (q - hi) * d == q * d - hi * d;
    SignOfProduct(q - hi, d);
  }

  /** With a positive factor, a product has the sign of the other factor. */
  lemma SignOfProduct(a: int, d: int)
    requires d > 0
    ensures a > 0 <==> a * d > 0
    ensures a <= 0 <==> a * d <= 0
  {
  }

  datatype ConsensusKind = Consensus | Divided

  /** The consensus badge: its kind and the percentage its label shows. */
  datatype Badge = Badge(kind: ConsensusKind, value: int)

  function BadgeLabel(b: Badge): string
  {
    match b.kind
    case Consensus => "Strong Consensus (" + IntToString(b.value) + "% alignment)"
    case Divided => "Divided Community (" + IntToString(b.value) + "% split)"
  }

  function Max(a: int, b: int): int { if a >= b then a else b }

  /** The badge for a percentage of agreeing words. */
  function BadgeFor(pct: int): Badge
  {
    if pct >= 70 then Badge(Consensus, pct)
    else if pct <= 30 then Badge(Divided, 100 - pct)
    else Badge(Divided, Max(pct, 100 - pct))
  }

  /** The badge for `n` comments with the given agreeing and disagreeing
      word counts. */
  function ConsensusFrom(n: nat, agree: nat, disagree: nat): Option<Badge>
  {
    if n < 2 || agree + disagree < 3 then None
    else Some(BadgeFor(RoundHalfEven(100 * agree, agree + disagree)))
  }

  /** A post's badge, against the agreement word lists. */
  function ConsensusOf(cs: seq<Comment>): Option<Badge>
  {
    ConsensusFrom(|cs|, Matches(cs, AgreeWords), Matches(cs, DisagreeWords))
  }

  /** _compute_consensus. */
  method ComputeConsensus(cs: seq<Comment>) returns (badge: Option<Badge>)
    ensures badge == ConsensusOf(cs)
  {
    if |cs| < 2 {
      return None;
    }
    var agree, disagree := CountAgreement(cs, AgreeWords, DisagreeWords);
    badge := ConsensusFrom(|cs|, agree, disagree);
  }

  /** The counting loop of _compute_consensus. */
  method CountAgreement(cs: seq<Comment>, agreeWords: set<string>, disagreeWords: set<string>)
    returns (agree: nat, disagree: nat)
    ensures agree == Matches(cs, agreeWords)
    ensures disagree == Matches(cs, disagreeWords)
  {
    agree, disagree := 0, 0;
    for k := 0 to |cs|
      invariant agree == Matches(cs[..k], agreeWords)
      invariant disagree == Matches(cs[..k], disagreeWords)
    {
      assert cs[..k + 1][..k] == cs[..k];
      var words := WordSet(cs[k].body);
      agree := agree + |words * agreeWords|;
      disagree := disagree + |words * disagreeWords|;
    }
    assert cs[..|cs|] == cs;
  }

  /** No badge with fewer than two comments or fewer than three matched
      words. Otherwise the badge is a consensus exactly when the rounded
      agreement is at least 70%, its value always is the larger of the
      agreeing and the disagreeing share, and that value is 50 to 100. */
  lemma ConsensusFromSpec(n: nat, agree: nat, disagree: nat)
    ensures ConsensusFrom(n, agree, disagree).None? <==> n < 2 || agree + disagree < 3
    ensures ConsensusFrom(n, agree, disagree).Some? ==>
      var pct := RoundHalfEven(100 * agree, agree + disagree);
      var b := ConsensusFrom(n, agree, disagree).value;
      0 <= pct <= 100
      && (b.kind == Consensus <==> pct >= 70)
      && b.value == Max(pct, 100 - pct)
      && 50 <= b.value <= 100
  {
    if n >= 2 && agree + disagree >= 3 {
      RoundHalfEvenRange(agree, agree + disagree);
      BadgeForSpec(RoundHalfEven(100 * agree, agree + disagree));
    }
  }

  /** A percentage's badge is a consensus exactly from 70% up and shows the
      larger of the two shares. */
  lemma BadgeForSpec(pct: int)
    requires 0 <= pct <= 100
    ensures BadgeFor(pct).kind == Consensus <==> pct >= 70
    ensures BadgeFor(pct).value == Max(pct, 100 - pct) && 50 <= BadgeFor(pct).value <= 100
  {
  }

  // ---------------------------------------------------------------------
  // Reading time, creators, spoilers

  function BodyWords(cs: seq<Comment>): nat
  {
    if cs == [] then 0 else BodyWords(cs[..|cs| - 1]) + WordCount(cs[|cs| - 1].body)
  }

  function PostWords(p: Post): nat
  {
    WordCount(p.title) + BodyWords(p.comments)
  }

  /** _reading_time: max(1, ceil(words / 200)). */
  function ReadingTime(p: Post): (minutes: int)
    ensures minutes >= 1
    ensures PostWords(p) == 0 ==> minutes == 1
    ensures PostWords(p) > 0 ==>
              WordsPerMinute * (minutes - 1) < PostWords(p) <= WordsPerMinute * minutes
  {
    var words := PostWords(p);
    Max(1, (words + WordsPerMinute - 1) / WordsPerMinute)
  }

  /** _is_creator_comment. */
  predicate IsCreator(c: Comment)
  {
    var flair := Lower(c.authorFlair);
    flair != [] && exists kw :: kw in CreatorFlairKeywords && Contains(flair, kw)
  }

  /** The empty-flair test is implied by the keyword test: a comment is a
      creator's exactly when some keyword occurs in its lower-cased flair. */
  lemma IsCreatorSpec(c: Comment)
    ensures IsCreator(c) <==> exists kw :: kw in CreatorFlairKeywords && Contains(Lower(c.authorFlair), kw)
    ensures c.authorFlair == [] ==> !IsCreator(c)
  {
    if Lower(c.authorFlair) == [] {
      forall kw | kw in CreatorFlairKeywords ensures !Contains(Lower(c.authorFlair), kw) {
        EmptyContainsNothingNonEmpty(kw);
      }
    }
  }

  lemma CreatorExample(c: Comment)
    requires c.authorFlair == "Staff"
    ensures IsCreator(c)
  {
    assert Lower(c.authorFlair) == "staff";
    assert OccursAt("staff", "staff", 0);
  }

  /** S\d{2}E\d{2}, any case, at position i. */
  predicate SpoilerEpisodeAt(s: string, i: int)
  {
    0 <= i && i + 5 < |s| && LowerChar(s[i]) == 's' && IsDigit(s[i + 1]) && IsDigit(s[i + 2])
    && LowerChar(s[i + 3]) == 'e' && IsDigit(s[i + 4]) && IsDigit(s[i + 5])
  }

  predicate HasSpoilerEpisode(s: string)
  {
    exists i :: 0 <= i < |s| && SpoilerEpisodeAt(s, i)
  }

  /** _has_spoiler. */
  predicate HasSpoiler(p: Post)
  {
    Contains(Lower(p.flair), "spoiler")
    || HasSpoilerEpisode(p.title)
    || exists kw :: kw in SpoilerKeywords && Contains(Lower(p.title), kw)
  }

  /** "spoiler" in the flair or in the title marks a spoiler; so does a
      two-digit season and episode code; nothing else does. */
  lemma SpoilerSpec(p: Post)
    ensures Contains(Lower(p.flair), "spoiler") ==> HasSpoiler(p)
    ensures Contains(Lower(p.title), "spoiler") ==> HasSpoiler(p)
    ensures HasSpoilerEpisode(p.title) ==> HasSpoiler(p)
    ensures !HasSpoiler(p) ==> forall kw :: kw in SpoilerKeywords ==> !Contains(Lower(p.title), kw)
    ensures HasSpoiler(p) ==>
              Contains(Lower(p.flair), "spoiler") || HasSpoilerEpisode(p.title)
              || exists kw :: kw in SpoilerKeywords && Contains(Lower(p.title), kw)
  {
    assert "spoiler" in SpoilerKeywords;
  }

  /** The spoiler code needs two digits each: "S1E2" is no spoiler code. */
  lemma ShortCodeNoSpoiler()
    ensures !HasSpoilerEpisode("S1E2")
  {
  }

  lemma SpoilerCodeExample()
    ensures HasSpoilerEpisode("S01E02")
  {
    assert SpoilerEpisodeAt("S01E02", 0);
  }

  // ---------------------------------------------------------------------
  // Catalyst and hottest post: max() keeps the first of the maximal items

  function FirstMaxIndex<T>(s: seq<T>, key: T -> int): (m: nat)
    requires s != []
    ensures m < |s|
    ensures forall j :: 0 <= j < |s| ==> key(s[j]) <= key(s[m])
    ensures forall j :: 0 <= j < m ==> key(s[j]) < key(s[m])
  {
    if |s| == 1 then 0
    else
      var m := FirstMaxIndex(s[..|s| - 1], key);
      if key(s[|s| - 1]) > key(s[m]) then |s| - 1 else m
  }

  function ScoreKey(c: Comment): int { c.score }

  function NumCommentsKey(p: Post): int { p.numComments }

  // ---------------------------------------------------------------------
  // Template preparation

  /** A comment as handed to the template. */
  datatype ShownComment = ShownComment(comment: Comment, isCreator: bool, isCatalyst: bool)

  /** A post as handed to the template, without the clock-dependent
      freshness fields and the show name. */
  datatype ShownPost = ShownPost(
    post: Post, sentiment: Sentiment, consensus: Option<Badge>, readingTime: int,
    hasSpoiler: bool, comments: seq<ShownComment>)

  function ShowComments(cs: seq<Comment>, catalyst: int): (r: seq<ShownComment>)
    ensures |r| == |cs|
    ensures forall i :: 0 <= i < |cs| ==>
              r[i] == ShownComment(cs[i], IsCreator(cs[i]), i == catalyst)
  {
    seq(|cs|, i requires 0 <= i < |cs| => ShownComment(cs[i], IsCreator(cs[i]), i == catalyst))
  }

  /** The catalyst is the first best-scored comment; a post without comments
      has none. */
  function Catalyst(cs: seq<Comment>): int
  {
    if cs == [] then -1 else FirstMaxIndex(cs, ScoreKey)
  }

  function ShowPost(p: Post): ShownPost
  {
    ShownPost(p, SentimentOf(p.comments), ConsensusOf(p.comments), ReadingTime(p),
              HasSpoiler(p), ShowComments(p.comments, Catalyst(p.comments)))
  }

  function ShowPosts(posts: seq<Post>): seq<ShownPost>
  {
    MapSeq(ShowPost, posts)
  }

  /** Every post is shown, in order, with its own computed features. */
  lemma ShowPostsSpec(posts: seq<Post>)
    ensures |ShowPosts(posts)| == |posts|
    ensures forall i :: 0 <= i < |posts| ==> ShowPosts(posts)[i] == ShowPost(posts[i])
  {
    MapSeqSpec(ShowPost, posts);
  }

  function TotalComments(posts: seq<Post>): int
  {
    if posts == [] then 0 else TotalComments(posts[..|posts| - 1]) + posts[|posts| - 1].numComments
  }

  /** _enrich_posts_for_template. */
  method PrepareForTemplate(posts: seq<Post>) returns (shown: seq<ShownPost>, totalComments: int)
    ensures shown == ShowPosts(posts)
    ensures totalComments == TotalComments(posts)
  {
    shown := [];
    totalComments := 0;
    for k := 0 to |posts|
      invariant shown == ShowPosts(posts[..k])
      invariant totalComments == TotalComments(posts[..k])
    {
      assert posts[..k + 1][..k] == posts[..k];
      var post := posts[k];
      var sp := PreparePost(post);
      shown := shown + [sp];
      totalComments := totalComments + post.numComments;
    }
    assert posts[..|posts|] == posts;
  }

  /** The body of the loop for one post. */
  method PreparePost(post: Post) returns (sp: ShownPost)
    ensures sp == ShowPost(post)
  {
    var sentiment := ComputeSentiment(post.comments);
    var consensus := ComputeConsensus(post.comments);
    var readingTime := ReadingTime(post);
    var spoiler := HasSpoiler(post);
    var comments := MarkComments(post.comments);
    sp := ShownPost(post, sentiment, consensus, readingTime, spoiler, comments);
  }

  /** The inner loop over a post's comments (creator flags), then the
      catalyst mark on the first best-scored one. */
  method MarkComments(cs: seq<Comment>) returns (shown: seq<ShownComment>)
    ensures shown == ShowComments(cs, Catalyst(cs))
  {
    shown := [];
    for j := 0 to |cs|
      invariant |shown| == j
      invariant forall i :: 0 <= i < j ==> shown[i] == ShownComment(cs[i], IsCreator(cs[i]), false)
    {
      shown := shown + [ShownComment(cs[j], IsCreator(cs[j]), false)];
    }
    if cs != [] {
      var top := FirstMaxIndex(cs, ScoreKey);
      shown := shown[top := shown[top].(isCatalyst := true)];
    }
  }

  /** Exactly one comment of a post with comments is the catalyst: the first
      one of highest score. */
  lemma CatalystSpec(p: Post)
    ensures var cs := ShowPost(p).comments;
      |cs| == |p.comments|
      && (forall i :: 0 <= i < |cs| ==> cs[i].comment == p.comments[i])
      && (p.comments == [] ==> forall i :: 0 <= i < |cs| ==> !cs[i].isCatalyst)
      && (forall i :: 0 <= i < |cs| && cs[i].isCatalyst ==>
            (forall j :: 0 <= j < |cs| ==> p.comments[j].score <= p.comments[i].score)
            && (forall j :: 0 <= j < i ==> p.comments[j].score < p.comments[i].score))
      && (p.comments != [] ==> exists i :: 0 <= i < |cs| && cs[i].isCatalyst)
      && (forall i, j :: 0 <= i < |cs| && 0 <= j < |cs| && cs[i].isCatalyst && cs[j].isCatalyst ==> i == j)
  {
    if p.comments != [] {
      var m := FirstMaxIndex(p.comments, ScoreKey);
      assert ShowPost(p).comments[m].isCatalyst;
    }
  }

  lemma {:induction false} TotalCommentsAppend(a: seq<Post>, b: seq<Post>)
    ensures TotalComments(a + b) == TotalComments(a) + TotalComments(b)
    decreases |b|
  {
    if b == [] {
      assert a + b == a;
    } else {
      assert (a + b)[..|a + b| - 1] == a + b[..|b| - 1];
      TotalCommentsAppend(a, b[..|b| - 1]);
    }
  }

  /** The total inherits the posts' counts: non-negative counts give a
      non-negative total, at least the count of any one post. */
  lemma {:induction false} TotalCommentsBound(posts: seq<Post>)
    requires forall i :: 0 <= i < |posts| ==> posts[i].numComments >= 0
    ensures TotalComments(posts) >= 0
    ensures forall i :: 0 <= i < |posts| ==> posts[i].numComments <= TotalComments(posts)
  {
    if posts != [] {
      TotalCommentsBound(posts[..|posts| - 1]);
    }
  }

  // ---------------------------------------------------------------------
  // The digest-wide figures of render

  function AllDegraded(posts: seq<Post>): (r: bool)
    ensures r <==> forall i :: 0 <= i < |posts| ==> posts[i].commentsDegraded
  {
    if posts == [] then true
    else AllDegraded(posts[..|posts| - 1]) && posts[|posts| - 1].commentsDegraded
  }

  /** Degraded mode: there are posts and every one lacks its comments. */
  function DigestDegraded(posts: seq<Post>): bool
  {
    posts != [] && AllDegraded(posts)
  }

  /** The fetched posts that did not reach the digest; 0 stands for "not
      known" when nothing was recorded as fetched. */
  function PostsFilteredOut(postsFetched: int, shownCount: int): int
  {
    if postsFetched != 0 then postsFetched - shownCount else 0
  }

  /** The figures render passes to the template besides the posts. */
  datatype Summary = Summary(
    degraded: bool, totalComments: int, hottestTitle: string, hottestComments: int,
    postsFilteredOut: int, postsFetched: int)

  function SummaryOf(posts: seq<Post>, postsFetched: int): Summary
  {
    var hottest := if posts == [] then -1 else FirstMaxIndex(posts, NumCommentsKey);
    Summary(DigestDegraded(posts), TotalComments(posts),
            if hottest < 0 then "" else posts[hottest].title,
            if hottest < 0 then 0 else posts[hottest].numComments,
            PostsFilteredOut(postsFetched, |posts|), postsFetched)
  }

  /** render, up to the template: the prepared posts and the summary.
      `postsFetched` is metrics["posts_fetched"], 0 when absent. */
  method RenderView(posts: seq<Post>, postsFetched: int) returns (shown: seq<ShownPost>, summary: Summary)
    ensures shown == ShowPosts(posts)
    ensures summary == SummaryOf(posts, postsFetched)
  {
    var degraded := if posts != [] then AllDegraded(posts) else false;
    var totalComments;
    shown, totalComments := PrepareForTemplate(posts);
    var hottestTitle, hottestComments := "", 0;
    if posts != [] {
      var h := FirstMaxIndex(posts, NumCommentsKey);
      hottestTitle, hottestComments := posts[h].title, posts[h].numComments;
    }
    var filteredOut := if postsFetched != 0 then postsFetched - |posts| else 0;
    summary := Summary(degraded, totalComments, hottestTitle, hottestComments, filteredOut, postsFetched);
  }

  /** Degraded mode holds exactly when there are posts and all are degraded;
      the hottest post has the most comments, the first such one, and nothing
      has more; a known fetch count splits into shown and filtered out. */
  lemma SummarySpec(posts: seq<Post>, postsFetched: int)
    ensures var s := SummaryOf(posts, postsFetched);
      (s.degraded <==> |posts| > 0 && forall i :: 0 <= i < |posts| ==> posts[i].commentsDegraded)
      && (posts == [] ==> s.hottestTitle == "" && s.hottestComments == 0 && !s.degraded)
      && (posts != [] ==>
            (exists h :: 0 <= h < |posts| && s.hottestTitle == posts[h].title
              && s.hottestComments == posts[h].numComments
              && (forall j :: 0 <= j < |posts| ==> posts[j].numComments <= posts[h].numComments)
              && (forall j :: 0 <= j < h ==> posts[j].numComments < posts[h].numComments)))
      && (postsFetched != 0 ==> s.postsFilteredOut + |posts| == postsFetched)
      && (postsFetched == 0 ==> s.postsFilteredOut == 0)
  {
    if posts != [] {
      var h := FirstMaxIndex(posts, NumCommentsKey);
      assert 0 <= h < |posts|;
    }
  }
}
