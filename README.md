# The TV Signal: a verified model of the digest pipeline

The TV Signal builds a daily HTML digest of /r/television. An orchestrator
runs seven stages in order:

1. fetch the RSS feed;
2. parse its entries into posts;
3. drop posts seen on earlier runs;
4. enrich each post with score, comment count and flair, then filter and sort;
5. attach the top three comments of each post;
6. render the digest;
7. update the memory: the rolling list of seen ids and the CLAUDE.md run log.

A separate scheduler works out how long to sleep until the next daily run.

This project models that core in Dafny:

- **Data.** Posts, comments and the metrics record are datatypes.
- **Loops.** Every statement loop in the source becomes a method with a `while`/`for` loop, proved equal to a specification function. There are two exceptions. `_reading_time`'s word count (render_html.py:114), part of a pure expression, is the recursive function `Render.BodyWords`. The scheduler's endless `while True` (scheduler.py:55) is left out.
- **Properties.** The rules the source promises are proved as lemmas about those functions.
- **Environment as data:**
  - Network replies, files, the clock and the stages' exceptions are inputs of the model.
  - The orchestrator's side effects (digest written, fallback written, memory updated, metrics saved) are returned as a trace.

Modules follow the source files:

- `Records`: post, comment, metrics.
- `Parse`: `parse_posts.py`.
- `Dedup`: `deduplicate.py`.
- `Filter`: `filter_posts.py`.
- `Comments`: `extract_comments.py`.
- `Render`: the computations of `render_html.py`.
- `Memory`: `update_memory.py`.
- `Orchestrator`: `run_digest.py`.
- `Scheduler`: `scheduler.py`.
- `Common` and `StableSort` hold the Python built-ins the source relies on:
  - `str.lower`, `str.strip`, `str.split` and slicing;
  - list comprehensions;
  - the stable `list.sort(reverse=True)`.

Where the design description and the code disagree, the model follows the code:

- **A failed render does not end the run "failed".** Task 6 sets the status to "failed". Task 7 then overwrites it with "success" or "partial" before the memory update (run_digest.py:151 and 161). `Orchestrator.RunPipeline` proves that every run reaching Task 7 ends "success" or "partial".
- **Parsed ids need not be unique.** The design promises unique ids, but parse_posts.py keeps every entry it can read (parse_posts.py:20-70). `Parse.DuplicateIdsKept` shows the same entry twice giving two posts with one id.
- **The consensus badge needs two comments, not five.** The docstring of `_compute_consensus` says it returns no label below 5 comments (render_html.py:73), but the code tests `len(comments) < 2` (render_html.py:74). `Render.ConsensusFrom` follows line 74. Under the docstring's rule no badge could ever show, since at most three comments are kept per post.
- **run_pipeline sets no exit code.** The design describes exit codes 0, 1 and 2, but run_pipeline returns the metrics and the script never calls sys.exit (run_digest.py:172-177).

Task 7 fails only on its import. update_memory catches every exception itself: the seen-ids helpers in deduplicate.py:16-28 and 36-41, and its CLAUDE.md part in update_memory.py:19-95. The handler at run_digest.py:163-165 is therefore reached only when the import at run_digest.py:158 raises. The run is then partial, its runtime stays 0 and the memory is not updated, as `Orchestrator.RenderAndRemember` states.

## Model

| member | source | states |
|---|---|---|
| Common.Lower | pipeline/filter_posts.py:107 | the result has the input's length and no ASCII capital; each ASCII capital becomes its small letter and every other character is unchanged |
| Common.LowerIdempotent | pipeline/filter_posts.py:107 | lowering twice is lowering once, and a string is unchanged by lowering exactly when it has no ASCII capital |
| Common.StripLeftSpec | pipeline/filter_posts.py:77 | lstrip removes exactly a whitespace prefix: the result is a suffix of the input, does not start with whitespace, and everything removed is whitespace |
| Common.StripRightSpec | pipeline/filter_posts.py:77 | rstrip removes exactly a whitespace suffix: the result is a prefix of the input, does not end with whitespace, and everything removed is whitespace |
| Common.StripSpec | pipeline/update_memory.py:75 | strip yields a contiguous slice of the input that neither starts nor ends with whitespace |
| Common.Take | pipeline/extract_comments.py:56 | s[:n] is a prefix of s of length min(len(s), n) |
| Records.Ids | pipeline/update_memory.py:15 | the id list has one entry per post, the i-th being the i-th post's id |
| StableSort.SortDescProps | pipeline/filter_posts.py:151 | the reverse sort by key is non-increasing in the key, a permutation of its input, and keeps, for every key value, the items with that key in input order (stability) |
| StableSort.SortDescUnique | pipeline/filter_posts.py:151 | any non-increasing list that holds, for every key value, the same items in the same order as the input is the sort's result: the sort is pinned down by sortedness plus stability |
| StableSort.SortDescOfSorted | pipeline/extract_comments.py:55 | an already non-increasing list is left unchanged by the sort |
| Dedup.LoadSeenIdsFailsSoft | pipeline/deduplicate.py:11-28 | a missing file, an unreadable or undecodable one, or one not holding a list reads as []; a stored list is returned as it is |
| Dedup.SaveSeenIdsWindow | pipeline/deduplicate.py:31-34 | at most 200 ids are stored; they are the last ids of the list, exactly 200 of them when there are more, and the whole list otherwise |
| Dedup.SaveSeenIdsCompose | pipeline/deduplicate.py:31-34 | cutting to 200, appending and cutting again equals cutting once: the window rolls |
| Dedup.DeduplicateCounts | pipeline/deduplicate.py:49 | every post whose id is unseen is kept as many times as it occurs, and no post with a seen id is kept |
| Dedup.DeduplicateNoSeen | pipeline/deduplicate.py:46-49 | no kept post has an id among the loaded seen ids |
| Dedup.DeduplicateIsSubsequence | pipeline/deduplicate.py:49 | the output is an order-preserving subsequence of the input |
| Dedup.DeduplicateAppend | pipeline/deduplicate.py:49 | deduplication works post by post: deduplicating a concatenation concatenates the results |
| Dedup.RemovedCount | pipeline/deduplicate.py:50 | the logged removed count, input length minus output length, is the number of posts whose id was seen |
| Dedup.DeduplicateExample | pipeline/deduplicate.py:49 | [A, B, C] with B seen gives [A, C] |
| Dedup.DuplicatesInBatchKept | pipeline/deduplicate.py:49 | two posts with the same unseen id both survive |
| Parse.IdRun | pipeline/parse_posts.py:30 | the group [a-z0-9]+ is the longest run of id characters at the front |
| Parse.SearchFromSpec | pipeline/parse_posts.py:30 | the left-to-right search finds nothing exactly when the pattern matches nowhere from the start position; otherwise it returns the group of the first match |
| Parse.CommentsIdSpec | pipeline/parse_posts.py:30-31 | re.search(r"/comments/([a-z0-9]+)", link) is None exactly when no position matches; otherwise its group is non-empty, made of id characters, and is the group of the leftmost match |
| Parse.Parse | pipeline/parse_posts.py:14-74 | the loop returns exactly the per-entry results of the feed in order; every post has a non-empty id and there are at most as many posts as entries |
| Parse.ParseOne | pipeline/parse_posts.py:21-70 | the loop body for one entry computes the entry's post, or the skip |
| Parse.ParsedIdsNonEmpty | pipeline/parse_posts.py:34-38 | every returned post has a non-empty id |
| Parse.ParseEntriesLength | pipeline/parse_posts.py:20-74 | at most one post per entry |
| Parse.ParseEntriesAppend | pipeline/parse_posts.py:20-74 | parsing works entry by entry in feed order: parsing a concatenation concatenates the results |
| Parse.SkipRule | pipeline/parse_posts.py:23-38 | an entry is skipped exactly when its own id is missing or empty and its link has no /comments/ match |
| Parse.IdFromLink | pipeline/parse_posts.py:27-32 | with an empty or http id and a link whose first match has group g, the id is "t3_" + g |
| Parse.HttpIdKept | pipeline/parse_posts.py:28-34 | an http id with no match in the link is kept as the id and the entry is not skipped |
| Parse.OwnIdKept | pipeline/parse_posts.py:23-28 | a non-empty id not starting with "http" is used as it is |
| Parse.AuthorRule | pipeline/parse_posts.py:44-55 | the author is author_detail.name, else author, else "[deleted]", each with the user prefix removed |
| Parse.StripUserPrefixOnce | pipeline/parse_posts.py:52-55 | exactly one leading "/u/" or "u/" is removed, not two |
| Parse.ParsedDefaults | pipeline/parse_posts.py:41-69 | a parsed post starts with score 0, num_comments 0, flair "", subreddit "television" and no comments; title and url come from the entry, created is published, else updated, else "" |
| Parse.DuplicateIdsKept | pipeline/parse_posts.py:20-70 | the parser does not deduplicate: the same entry twice gives two posts with the same id |
| Parse.LinkExample | pipeline/parse_posts.py:30-32 | "/comments/ab1/x" yields the group "ab1" |
| Filter.FilterPosts | pipeline/filter_posts.py:100-151 | the loop and the in-place sort compute the posts passing the four checks, sorted by num_comments, highest first |
| Filter.KeptCounts | pipeline/filter_posts.py:105-148 | the loop keeps every passing post as often as it occurs and no failing post |
| Filter.KeptAllPass | pipeline/filter_posts.py:105-148 | every kept post passes all four checks and comes from the input |
| Filter.KeptOfPassing | pipeline/filter_posts.py:105-148 | a list whose posts all pass is kept whole |
| Filter.FilterSpecExactly | pipeline/filter_posts.py:105-151 | filter_posts returns exactly the passing posts (as a multiset), sorted by num_comments non-increasing, with ties in input order |
| Filter.FilterSpecAllPass | pipeline/filter_posts.py:105-151 | every returned post passes and comes from the input |
| Filter.FilterIdempotent | pipeline/filter_posts.py:100-151 | filtering the output again gives the same list |
| Filter.KeywordIsSubstring | pipeline/filter_posts.py:107-110 | keywords match as substrings: "Broadcaster" is dropped for "cast" |
| Filter.FlairRule | pipeline/filter_posts.py:113-125 | an empty flair never removes a post; a non-empty flair survives exactly when its lower-case form is not blocked and is allowed |
| Filter.CommentRule | pipeline/filter_posts.py:129-136 | the threshold is 20 for episode discussions and 50 otherwise; a post is dropped exactly when 0 < num_comments < threshold, so 0 comments never drops it |
| Filter.RatioRule | pipeline/filter_posts.py:138-146 | the ratio rule never drops episode discussions or posts with score <= 0; otherwise it drops exactly when num_comments / score < 0.1 |
| Filter.UnenrichedSurvivesFlairAndCount | pipeline/filter_posts.py:113-136 | a post enrichment left alone (flair "", 0 comments) passes the flair and comment checks |
| Filter.EpisodeExample | pipeline/filter_posts.py:39-52 | "Show S1E02" is an episode discussion with threshold 20 |
| Filter.EnrichPosts | pipeline/filter_posts.py:55-97 | every post is returned, same count and order, each updated from its own listing reply |
| Filter.EnrichOneSpec | pipeline/filter_posts.py:64-86 | only score, num_comments and flair ever change; on a non-200 reply or any exception nothing changes; on success they are the reply's score and num_comments (0 when missing) and the stripped flair ("" when null) |
| Filter.EnrichAndFilter | pipeline/filter_posts.py:167-171 | the result is the filter applied to the enriched posts |
| Comments.Truncate | pipeline/extract_comments.py:41 | a body of at most 500 characters is unchanged; a longer one becomes its first 500 characters plus "..."; the result has at most 503 characters |
| Comments.StripLinksFromNoBracket | pipeline/extract_comments.py:43 | text without "[" is left unchanged by the link substitution |
| Comments.CleanBodyBounds | pipeline/extract_comments.py:41-43 | a cleaned body, truncated before link stripping, has at most 503 characters; a short body without links is unchanged |
| Comments.LinkExample | pipeline/extract_comments.py:43 | "[a](u)" becomes "a" |
| Comments.EmptyTextKept | pipeline/extract_comments.py:43 | "[](u)" is not a link for the pattern (its text must be non-empty) and stays |
| Comments.LinkAtFinds | pipeline/extract_comments.py:43 | every "[t](u)" with a non-empty text t free of "]" and a non-empty target u free of ")" is matched where it starts, and the match ends just past its ")" |
| Comments.LinkAtSound | pipeline/extract_comments.py:43 | every match reported is such a "[t](u)", and the text returned is its t |
| Comments.StripLinksLink | pipeline/extract_comments.py:43 | the substitution replaces such a link by its text and goes on scanning right after the link |
| Comments.ExtractComments | pipeline/extract_comments.py:16-79 | every post is visited and returned in order, each changed only by its own listing reply |
| Comments.CollectComments | pipeline/extract_comments.py:33-52 | the children loop yields the cleaned t1 comments in order, or reports the lookup that raised |
| Comments.RawCommentsNoneExtends | pipeline/extract_comments.py:35-37 | once a child's lookup raises, later children do not matter |
| Comments.RawCommentsSpec | pipeline/extract_comments.py:35-52 | collecting succeeds exactly when every child has a kind and every t1 child has data; then each comment comes from a t1 child, and there are at most as many as children |
| Comments.RawCommentsAreT1 | pipeline/extract_comments.py:35-52 | on a usable listing the comments are exactly those of the t1 children, in listing order, each built from its data with the defaults |
| Comments.NonCommentIgnored | pipeline/extract_comments.py:36 | a child whose kind is not "t1" adds nothing |
| Comments.TopCommentsSpec | pipeline/extract_comments.py:54-56 | at most 3 comments are kept, by score non-increasing; they are the first of the stable score sort, none is lower than a dropped one, and the sort is a permutation with ties in listing order |
| Comments.ExtractOneSpec | pipeline/extract_comments.py:28-67 | only the comment fields change; non-200, an exception or a failed lookup gives no comments and sets the degradation flag; a reply not holding two elements leaves the post alone; a success keeps the flag and stores the 3 best-scored, in score order, of the comments of the t1 children |
| Comments.DegradedStays | pipeline/extract_comments.py:61-67 | the extractor never clears a degradation flag |
| Comments.ToCommentDefaults | pipeline/extract_comments.py:46-51 | missing fields default to author "[deleted]", body "", score 0, flair "" |
| Render.MatchesAppend | pipeline/render_html.py:51-55 | word counts add up comment by comment |
| Render.MatchesBound | pipeline/render_html.py:51-55 | each comment counts each distinct listed word at most once |
| Render.ComputeSentiment | pipeline/render_html.py:44-69 | the counting loop and cascade compute the post's sentiment |
| Render.CountMatches | pipeline/render_html.py:48-55 | the loop's three counters are the positive, negative and mixed word counts |
| Render.ClassifySpec | pipeline/render_html.py:56-69 | neutral exactly when no word matched; positive implies pos > neg and pos > mix; negative implies neg > pos and neg > mix; mixed implies mix >= both or abs(pos - neg) <= 2; the two dominance tests force their labels |
| Render.ClassifySwap | pipeline/render_html.py:59-69 | the cascade is symmetric: swapping positive and negative counts swaps those labels and keeps mixed |
| Render.SentimentNeutral | pipeline/render_html.py:46-58 | the sentiment is neutral exactly when no word matched, including when there are no comments |
| Render.RoundHalfEvenSpec | pipeline/render_html.py:87 | round gives a nearest integer, and the even one on a tie |
| Render.RoundHalfEvenRange | pipeline/render_html.py:87 | the rounded agreement percentage lies in 0..100 |
| Render.ComputeConsensus | pipeline/render_html.py:72-92 | the counting loop computes the post's consensus badge |
| Render.CountAgreement | pipeline/render_html.py:78-83 | the loop's two counters are the agreeing and disagreeing word counts |
| Render.ConsensusFromSpec | pipeline/render_html.py:74-92 | no badge with fewer than 2 comments or fewer than 3 matched words; otherwise "consensus" exactly when pct >= 70, else "divided", with value max(pct, 100 - pct) in 50..100 |
| Render.BadgeForSpec | pipeline/render_html.py:88-92 | the three label branches value the percentage as max(pct, 100 - pct), and consensus is pct >= 70 |
| Render.ReadingTime | pipeline/render_html.py:111-116 | at least 1 minute; ceil(words / 200) over title and comment bodies otherwise |
| Render.IsCreatorSpec | pipeline/render_html.py:119-124 | creator exactly when some keyword occurs in the lower-cased flair; never for an empty flair |
| Render.CreatorExample | pipeline/render_html.py:119-124 | the flair "Staff" marks a creator |
| Render.SpoilerSpec | pipeline/render_html.py:127-135 | "spoiler" in the flair, an SxxEyy code in the title, or a spoiler keyword in the title each mark a spoiler, and no post without one of them is marked |
| Render.ShortCodeNoSpoiler | pipeline/render_html.py:41 | "S1E2" has single digits and is no spoiler code |
| Render.SpoilerCodeExample | pipeline/render_html.py:41 | "S01E02" is a spoiler code |
| Render.FirstMaxIndex | pipeline/render_html.py:164 | max picks a maximal element, the first among equals |
| Render.ShowPostsSpec | pipeline/render_html.py:141-165 | every post is prepared in order, one shown post per post |
| Render.PrepareForTemplate | pipeline/render_html.py:138-190 | the loop prepares every post and returns the total of num_comments |
| Render.PreparePost | pipeline/render_html.py:142-165 | one iteration computes sentiment, consensus, reading time, spoiler and comment flags |
| Render.MarkComments | pipeline/render_html.py:158-165 | the comment loop sets the creator flags and marks the catalyst |
| Render.CatalystSpec | pipeline/render_html.py:161-165 | the comments are kept in order; with comments exactly one is the catalyst, the first of maximal score; without comments none is |
| Render.TotalCommentsAppend | pipeline/render_html.py:188 | the total adds up post by post |
| Render.TotalCommentsBound | pipeline/render_html.py:188-190 | with non-negative counts the total is non-negative and at least each post's count |
| Render.AllDegraded | pipeline/render_html.py:204 | all() holds exactly when every post is degraded |
| Render.RenderView | pipeline/render_html.py:193-218 | render prepares the posts and computes the dashboard summary |
| Render.SummarySpec | pipeline/render_html.py:203-218 | degraded exactly when there are posts and all are degraded; the hottest post is the first with the most comments ("" and 0 without posts); filtered out is posts_fetched - len(posts), or 0 when posts_fetched is 0 |
| Memory.UpdatedSeenIdsWindow | pipeline/update_memory.py:14-16 | the stored ids are the last min(200, n) of the previous ids followed by the posts' ids |
| Memory.NewIdsKept | pipeline/update_memory.py:14-16 | at most 200 new ids all end up at the end of the window, in order |
| Memory.LastStartingWith | pipeline/update_memory.py:34-38 | the scan records the last line starting with the header, or -1 |
| Memory.HeadersDisjoint | pipeline/update_memory.py:34-38 | no line starts with both headers, so the elif never hides a history header |
| Memory.ScanHeaders | pipeline/update_memory.py:31-38 | the enumerate loop finds the last "## Last Run" and the last "## Run History" line |
| Memory.ExtractHistory | pipeline/update_memory.py:71-78 | the loop collects the history entries of the lines after the header |
| Memory.HistoryEntriesSpec | pipeline/update_memory.py:72-78 | every collected line is an entry ("- " after stripping) from the section, collected in order |
| Memory.HistoryStops | pipeline/update_memory.py:77-78 | a "##" line that is not an entry ends the collection |
| Memory.LastRunBlockLines | pipeline/update_memory.py:50-67 | the Last Run block is 10 lines: its header, then nine "- " lines, none of which is a header |
| Memory.ItemIsNoSection | pipeline/update_memory.py:51-67 | a "- " line is neither a section nor a header line |
| Memory.NewEntryIsEntry | pipeline/update_memory.py:81-82 | the new history line is an entry |
| Memory.NewHistoryShape | pipeline/update_memory.py:80-87 | the history is 1 to 30 entries; the new entry is first, followed by a prefix of the old entries, all of them when fewer than 30 |
| Memory.KeptPrefix | pipeline/update_memory.py:41-47 | the lines before the last "## Last Run" line or, without one, the first 12 lines of the freshly written initial file, which end with that file's "## Last Run" line |
| Memory.NewHistoryLines | pipeline/update_memory.py:69-87 | the collected, prepended and truncated history |
| Memory.RewriteLines | pipeline/update_memory.py:26-90 | the rewrite as written: the kept prefix, the Last Run block, the "## Run History" line and the new history |
| Memory.PrefixKept | pipeline/update_memory.py:41-90 | everything before the last Last Run line is kept unchanged, followed by the 10-line block, the history header and the new history; whatever followed the old history is dropped; the corrected fallback gives the same file here |
| Memory.InitialLinesHeaders | pipeline/update_memory.py:100-116 | the initial file has its only "## Last Run" line at index 11 and its last "## Run History" line at index 14 |
| Memory.InitialHistoryEmpty | pipeline/update_memory.py:72-78 | the initial file's history has no entries |
| Memory.MissingFileRewrite | pipeline/update_memory.py:19-90 | a missing CLAUDE.md ends as the initial file's first 11 lines, the block, the history header and the single new entry |
| Memory.UpdateMemory | pipeline/update_memory.py:11-95 | the seen ids grow by the digest's ids and are saved whatever becomes of CLAUDE.md; CLAUDE.md gets the rewrite as written (a missing one is created first); an unreadable CLAUDE.md stays as it was |
| Memory.FallbackDuplicatesHeader | pipeline/update_memory.py:44-50 | as written, and so in Memory.UpdateMemory, a file without a Last Run line is rewritten with "## Last Run" twice in a row |
| Memory.FallbackSingleHeader | pipeline/update_memory.py:44-50 | with the corrected fallback such a file gets exactly one Last Run line, right after the 11 kept initial lines |
| Orchestrator.CountWithCommentsSpec | run_digest.py:124-126 | comments_success is at most the number of posts, 0 exactly when no post has comments, and the number of posts exactly when all have |
| Orchestrator.DegradedPost | run_digest.py:130-132 | a failed extraction empties a post's comments and sets its flag, and changes nothing else |
| Orchestrator.DegradeAll | run_digest.py:130-132 | the loop degrades every post, keeping the count and order |
| Orchestrator.DegradedPostsShowDegraded | run_digest.py:128-133 | after a failed extraction no post has comments, and the digest is in degraded mode exactly when there are posts |
| Orchestrator.ExtractStage | run_digest.py:119-133 | on success comments_total = len(posts), comments_success counts posts with comments, degraded iff that is 0 and there are posts; on failure every post is degraded and degraded is set |
| Orchestrator.RenderAndRemember | run_digest.py:136-172 | the digest or a fallback is written; once the memory updater is imported the runtime is measured, the status becomes success or partial by the degraded flag and update_memory gets the final metrics; when the import raises the runtime is left unmeasured, no update happens and the status is partial; posts_in_digest is set only when render succeeded; the metrics are saved once, last |
| Orchestrator.RunPipeline | run_digest.py:35-173 | metrics are saved exactly once, last, with exactly one digest or fallback; fetch and parse failures return early with a fallback and the initial metrics, runtime measured; dedup and filter failures keep the previous list; the memory update gets the final posts and metrics; a failed import of the memory updater leaves the runtime at 0 and updates nothing; the final status is success exactly when not degraded and that import succeeded, and never failed once Task 7 runs |
| Scheduler.TargetTime | scheduler.py:39 | replace succeeds exactly for hour 0..23 and minute 0..59, giving a time of day on a whole minute |
| Scheduler.MicrosUntilTarget | scheduler.py:36-42 | the wait is strictly positive, at most one day, and ends at hour:minute:00.000000 |
| Scheduler.MicrosUntilTargetUnique | scheduler.py:36-42 | it is the only wait with those three properties |
| Scheduler.LaterToday | scheduler.py:39-42 | a target later today is reached in target - now |
| Scheduler.NotLaterToday | scheduler.py:40-41 | a target not later than now moves to tomorrow; at equality the wait is exactly one day |
| Scheduler.EveningExample | scheduler.py:47-56 | for the 23:00 schedule, at 22:30 the wait is half an hour and at 23:00 a full day |

## Left out

- Network: the feed fetch (pipeline/fetch_rss.py is not part of this model), the enrichment and comment requests, timeouts and the one-second sleeps. Each reply or exception is an input.
- Foreign libraries: `feedparser.parse` and `html.unescape` are not modelled. Entries arrive as records with the title already unescaped, and a parse that raises is an input of the orchestrator.
- File I/O: artifact JSON dumps, the digest and fallback HTML files, the Jinja template, `_save_metrics` and logging. render, render_fallback_digest and _save_metrics are abstract steps in the orchestrator's trace; one of them raising is not modelled.
- Clock: every `datetime.now()` and `time.time()` value is a parameter:
  - the metrics date and runtime strings;
  - the history entry's date;
  - the scheduler's time of day.
- Render's freshness fields (hours_ago, time_ago, is_trending) depend on the clock and floating-point hours. They, the show-name extraction and the file size are left out.
- Python dicts are mutated in place and shared between stages. The model passes values, so nothing is aliased.
  - One consequence is not captured: posts that enrich_posts changed stay changed when filter_posts then raises, because the orchestrator keeps the same dicts.
- Strings: `str.strip` and `str.split` use Python's whole whitespace set (`Common.IsSpace`); `str.split` counts maximal runs of non-whitespace.
- Common.Lower: `str.lower` is modelled on the ASCII capitals only. Other cased letters, such as "É", are left unchanged, where Python lowers them.
- Filter.HasEpisodeMarker and Render.HasSpoilerEpisode: the model accepts ASCII digits and ASCII case only. In EPISODE_RE (filter_posts.py:39) and SPOILER_EPISODE_RE (render_html.py:41) `\d` matches any Unicode decimal digit, and IGNORECASE also lets a few non-ASCII letters match, such as "ſ" (U+017F) for "s".
- CLAUDE.md:
  - It is taken as the list of lines readlines() returns.
  - A write that fails after a successful read is not modelled separately. When a Last Run line was found, the file then stays as it was, like an unreadable one. In the fallback branch `_create_initial_claude()` (update_memory.py:45) has already replaced it with the initial content.
  - A seen-ids write failure (logged and swallowed) is not modelled.
- Parse.ParseEntry: the per-entry `except Exception` (parse_posts.py:72-74) has no counterpart. The model's entries are records whose lookups cannot raise, so no entry is skipped for raising.
- JSON nulls: a null score or num_comments from enrichment is not modelled. Nor is a null comment author (stored as null), a null comment body (which raises), or a null comment score (which makes the sort at extract_comments.py:55 raise once there are two comments, degrading the post).
- Filter.RatioRule: the float test num_comments / score < 0.1 is modelled as the integer test 10 * num_comments < score. This is exact for integers except where the float quotient rounds across 0.1.
- Render.RoundHalfEvenSpec: round(agree / total * 100) is modelled as the exact rational round-half-even of 100 * agree / total. Floating-point error at a tie is not modelled.
- Render.ConsensusFromSpec: the badge is stated on the word counts. That the counts are the comments' counts is ComputeConsensus's and CountAgreement's contract.
- Scheduler.MicrosUntilTarget:
  - Times are microseconds since midnight of a 24-hour day, so DST and time-zone changes are left out.
  - total_seconds() is the result divided by 10^6, a float conversion the model does not perform.
  - The scheduler's main loop and run_job (process supervision, an infinite loop) are left out.
- Exit codes: none are modelled, because run_pipeline never calls sys.exit.

## Findings

| source | as written | input that shows it | evidently intended | confidence | as-written member | corrected member |
|---|---|---|---|---|---|---|
| pipeline/update_memory.py:47 | a file without a "## Last Run" line is replaced by the initial file's first 12 lines, which end with that file's own "## Last Run" line; the new block then adds another | any CLAUDE.md with no line starting "## Last Run", e.g. an empty file | keep the 11 lines before the initial file's Last Run line, as the comment "Up to before Last Run" says | not executed | Memory.FallbackDuplicatesHeader | Memory.FallbackSingleHeader |

`Memory.UpdateMemory`, `Memory.RewriteLines` and `Memory.KeptPrefix` model the code as written, through `Memory.RewriteAsWritten`. `Memory.Rewrite` is the corrected rewrite. The two agree whenever the file has a Last Run line (`Memory.PrefixKept`).
