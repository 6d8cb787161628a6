/** The records that flow through the pipeline: a post (one feed entry, later
    enriched and given comments) and a comment attached to it. */
module Records {

  /** A cleaned comment as the extractor stores it on a post. */
  datatype Comment = Comment(author: string, body: string, score: int, authorFlair: string)

  /** A post. `comments` stands for the "comments" key; a post that never got
      that key is a post with no comments, which is how every later reader
      treats it. `commentsDegraded` is the "comments_degraded" flag, False
      when never set. */
  datatype Post = Post(
    id: string,
    title: string,
    url: string,
    score: int,
    numComments: int,
    flair: string,
    author: string,
    created: string,
    subreddit: string,
    comments: seq<Comment>,
    commentsDegraded: bool)

  function Ids(posts: seq<Post>): (ids: seq<string>)
    ensures |ids| == |posts|
    ensures forall i :: 0 <= i < |posts| ==> ids[i] == posts[i].id
  {
    if posts == [] then [] else Ids(posts[..|posts| - 1]) + [posts[|posts| - 1].id]
  }

  /** The same posts, once each field but the two comment fields is equal. */
  predicate SameBesidesComments(p: Post, q: Post)
  {
    p.(comments := q.comments, commentsDegraded := q.commentsDegraded) == q
  }

  /** The run's outcome as the metrics record it. */
  datatype Status = Success | Partial | Failed

  function StatusText(s: Status): string
  {
    match s
    case Success => "success"
    case Partial => "partial"
    case Failed => "failed"
  }

  /** The metrics record of one run. `date` and `runtime` are the texts the
      clock gives (an ISO timestamp, seconds rounded to two places). */
  datatype Metrics = Metrics(
    date: string,
    postsFetched: int,
    postsAfterDedup: int,
    postsAfterFilter: int,
    postsInDigest: int,
    commentsSuccess: int,
    commentsTotal: int,
    degraded: bool,
    runtime: string,
    status: Status)
}
