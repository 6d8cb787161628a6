/** The orchestrator: seven stages run one after the other, each of which
    either succeeds or raises. A failed fetch or parse ends the run with a
    fallback digest; a failed deduplication or filter keeps the previous list;
    a failed comment extraction degrades every post; a failed render writes a
    fallback digest and the run goes on. update_memory itself never raises
    (its seen-ids helpers and its CLAUDE.md part catch everything), so Task 7
    fails only when importing it raises: the run is then partial, its runtime
    is never measured and the memory is not updated. The metrics record is filled in field by field on the way and
    saved exactly once, at the end of every path.

    The stages themselves are not run here: what each one returns, or whether
    it raises, is an input (`Stages`), and the side effects the orchestrator
    causes are returned as a trace (`Effect`). */
module Orchestrator {
  import opened Common
  import opened Records
  import Render

  /** What each stage does on this run: whether fetch succeeded, what parse
      returned, what the three list stages return for a given list (`Fail`
      when they raise), whether render succeeded, and whether importing the
      memory updater succeeded. */
  datatype Stages = Stages(
    fetchOk: bool,
    parse: Outcome<seq<Post>>,
    dedup: seq<Post> -> Outcome<seq<Post>>,
    filter: seq<Post> -> Outcome<seq<Post>>,
    extract: seq<Post> -> Outcome<seq<Post>>,
    renderOk: bool,
    memoryImportOk: bool)

  /** Why a fallback digest was written. */
  datatype FallbackReason = FetchFailed | ParseFailed | RenderFailed

  /** The orchestrator's side effects, in the order it causes them. `Digest`
      and `MemoryUpdate` carry the posts and the metrics as they were passed. */
  datatype Effect =
    | FallbackDigest(reason: FallbackReason)
    | Digest(posts: seq<Post>, metrics: Metrics)
    | MemoryUpdate(posts: seq<Post>, metrics: Metrics)
    | SaveMetrics(metrics: Metrics)

  /** The metrics before any stage: counts 0, not degraded, status failed;
      the runtime reads 0 until it is measured. */
  function InitialMetrics(date: string): Metrics
  {
    Metrics(date, 0, 0, 0, 0, 0, 0, false, "0", Failed)
  }

  predicate IsArtifact(e: Effect)
  {
    e.FallbackDigest? || e.Digest?
  }

  function CountArtifacts(trace: seq<Effect>): nat
  {
    if trace == [] then 0
    else CountArtifacts(trace[..|trace| - 1]) + (if IsArtifact(trace[|trace| - 1]) then 1 else 0)
  }

  function CountSaves(trace: seq<Effect>): nat
  {
    if trace == [] then 0
    else CountSaves(trace[..|trace| - 1]) + (if trace[|trace| - 1].SaveMetrics? then 1 else 0)
  }

  /** A trace of one artifact, then effects that are neither artifacts nor
      saves, then one save, saves once and writes one artifact. */
  lemma SingleArtifactCounts(artifact: Effect, middle: seq<Effect>, m: Metrics)
    requires IsArtifact(artifact)
    requires |middle| <= 1 && forall e :: e in middle ==> !IsArtifact(e) && !e.SaveMetrics?
    ensures var trace := [artifact] + middle + [SaveMetrics(m)];
      CountSaves(trace) == 1 && CountArtifacts(trace) == 1
  {
    var trace := [artifact] + middle + [SaveMetrics(m)];
    var init := [artifact] + middle;
    assert trace[..|trace| - 1] == init;
    assert [artifact][..0] == [];
    assert CountSaves([artifact]) == 0 && CountArtifacts([artifact]) == 1;
    if middle != [] {
      assert init[..1] == [artifact];
      assert init[|init| - 1] in middle;
    } else {
      assert init == [artifact];
    }
    assert CountSaves(init) == 0 && CountArtifacts(init) == 1;
  }

  // ---------------------------------------------------------------------
  // The comment metrics

  /** A post that got at least one comment. */
  predicate HasComments(p: Post)
  {
    |p.comments| > 0
  }

  /** comments_success: the number of posts with comments. */
  function CountWithComments(posts: seq<Post>): (n: nat)
  {
    if posts == [] then 0
    else CountWithComments(posts[..|posts| - 1]) + (if HasComments(posts[|posts| - 1]) then 1 else 0)
  }

  /** The count is at most the number of posts, it is 0 exactly when no post
      has comments, and it is the number of posts exactly when all have. */
  lemma {:induction false} CountWithCommentsSpec(posts: seq<Post>)
    ensures CountWithComments(posts) <= |posts|
    ensures CountWithComments(posts) == 0 <==> forall i :: 0 <= i < |posts| ==> !HasComments(posts[i])
    ensures CountWithComments(posts) == |posts| <==> forall i :: 0 <= i < |posts| ==> HasComments(posts[i])
  {
    if posts != [] {
      var init := posts[..|posts| - 1];
      CountWithCommentsSpec(init);
      assert forall i :: 0 <= i < |init| ==> init[i] == posts[i];
    }
  }

  /** The post as a failed extraction leaves it: no comments, degraded. */
  function DegradedPost(p: Post): (q: Post)
    ensures SameBesidesComments(p, q) && q.comments == [] && q.commentsDegraded
  {
    p.(comments := [], commentsDegraded := true)
  }

  /** The loop that marks every post degraded after a failed extraction. */
  method DegradeAll(posts: seq<Post>) returns (degraded: seq<Post>)
    ensures |degraded| == |posts|
    ensures forall i :: 0 <= i < |posts| ==> degraded[i] == DegradedPost(posts[i])
  {
    degraded := [];
    var i := 0;
    while i < |posts|
      invariant 0 <= i <= |posts|
      invariant |degraded| == i
      invariant forall j :: 0 <= j < i ==> degraded[j] == DegradedPost(posts[j])
    {
      degraded := degraded + [DegradedPost(posts[i])];
      i := i + 1;
    }
  }

  /** After a failed extraction no post has comments and, when there are
      posts, the digest shows degraded mode. */
  lemma DegradedPostsShowDegraded(posts: seq<Post>, degraded: seq<Post>)
    requires |degraded| == |posts|
    requires forall i :: 0 <= i < |posts| ==> degraded[i] == DegradedPost(posts[i])
    ensures CountWithComments(degraded) == 0
    ensures Render.DigestDegraded(degraded) <==> posts != []
  {
    CountWithCommentsSpec(degraded);
    assert forall i :: 0 <= i < |degraded| ==> !HasComments(degraded[i]);
  }

  // ---------------------------------------------------------------------
  // The run

  /** The list a non-fatal stage leaves: its result, or its input when it
      raised. */
  function KeepOnFailure(r: Outcome<seq<Post>>, input: seq<Post>): seq<Post>
  {
    match r
    case Ok(out) => out
    case Fail => input
  }

  /** Task 5: the extraction's posts and comment counts, or, when it raised,
      every post degraded and the counts left at 0. */
  method ExtractStage(extracted: Outcome<seq<Post>>, filtered: seq<Post>)
    returns (posts: seq<Post>, total: nat, success: nat, degraded: bool)
    ensures extracted.Ok? ==>
      posts == extracted.value && total == |posts| && success == CountWithComments(posts)
      && (degraded <==> success == 0 && |posts| > 0)
    ensures extracted.Fail? ==>
      |posts| == |filtered| && (forall i :: 0 <= i < |filtered| ==> posts[i] == DegradedPost(filtered[i]))
      && posts == MapSeq(DegradedPost, filtered)
      && total == 0 && success == 0 && degraded
  {
    if extracted.Ok? {
      posts := extracted.value;
      total := |posts|;
      success := CountWithComments(posts);
      degraded := success == 0 && |posts| > 0;
    } else {
      posts := DegradeAll(filtered);
      MapSeqSpec(DegradedPost, filtered);
      assert posts == MapSeq(DegradedPost, filtered);
      total, success, degraded := 0, 0, true;
    }
  }

  /** Tasks 6 and 7: render, or write the fallback when it raises; then,
      once the memory updater is imported, measure the runtime, set the
      status from the degraded flag and update the memory; save the metrics
      last. A failed render's status is overwritten by Task 7. When the
      import raises, the runtime stays as it was, no update happens and the
      run is partial. */
  method RenderAndRemember(renderOk: bool, memoryImportOk: bool, posts: seq<Post>, before: Metrics, elapsed: string)
    returns (metrics: Metrics, trace: seq<Effect>)
    ensures |trace| == (if memoryImportOk then 3 else 2) && trace[|trace| - 1] == SaveMetrics(metrics)
    ensures CountSaves(trace) == 1 && CountArtifacts(trace) == 1
    ensures memoryImportOk ==> trace[1] == MemoryUpdate(posts, metrics) && metrics.runtime == elapsed
    ensures !memoryImportOk ==> metrics.runtime == before.runtime && metrics.status == Partial
    ensures metrics == before.(postsInDigest := metrics.postsInDigest, runtime := metrics.runtime, status := metrics.status)
    ensures renderOk ==> trace[0] == Digest(posts, before) && metrics.postsInDigest == |posts|
    ensures !renderOk ==> trace[0] == FallbackDigest(RenderFailed) && metrics.postsInDigest == before.postsInDigest
    ensures metrics.status == Success <==> !before.degraded && memoryImportOk
    ensures metrics.status != Failed
  {
    metrics := before;
    // Task 6: render
    var artifact;
    if renderOk {
      artifact := Digest(posts, metrics);
      metrics := metrics.(postsInDigest := |posts|);
    } else {
      artifact := FallbackDigest(RenderFailed);
      metrics := metrics.(status := Failed);
    }
    // Task 7: the update itself cannot raise; only the import before it can
    if memoryImportOk {
      metrics := metrics.(runtime := elapsed, status := if !metrics.degraded then Success else Partial);
      var update := MemoryUpdate(posts, metrics);
      trace := [artifact, update, SaveMetrics(metrics)];
      assert trace == [artifact] + [update] + [SaveMetrics(metrics)];
      SingleArtifactCounts(artifact, [update], metrics);
    } else {
      metrics := metrics.(status := Partial);
      trace := [artifact, SaveMetrics(metrics)];
      assert trace == [artifact] + [] + [SaveMetrics(metrics)];
      SingleArtifactCounts(artifact, [], metrics);
    }
  }

  /** run_pipeline. `date` is the clock's ISO timestamp at the start and
      `elapsed` the measured runtime, rounded, whichever path reads it. */
  method RunPipeline(st: Stages, date: string, elapsed: string) returns (metrics: Metrics, trace: seq<Effect>)
    // metrics are saved exactly once, last, and one digest is written
    ensures |trace| >= 2 && trace[|trace| - 1] == SaveMetrics(metrics)
    ensures CountSaves(trace) == 1 && CountArtifacts(trace) == 1
    ensures metrics.date == date
    // fetch failure: fallback, nothing measured, status failed
    ensures !st.fetchOk ==>
      trace == [FallbackDigest(FetchFailed), SaveMetrics(metrics)]
      && metrics == InitialMetrics(date).(runtime := elapsed)
    // parse failure: the same, with its own reason
    ensures st.fetchOk && st.parse.Fail? ==>
      trace == [FallbackDigest(ParseFailed), SaveMetrics(metrics)]
      && metrics == InitialMetrics(date).(runtime := elapsed)
    // every other run reaches the memory update
    ensures st.fetchOk && st.parse.Ok? ==>
      var parsed := st.parse.value;
      var deduped := KeepOnFailure(st.dedup(parsed), parsed);
      var filtered := KeepOnFailure(st.filter(deduped), deduped);
      var extracted := st.extract(filtered);
      var posts := if extracted.Ok? then extracted.value else MapSeq(DegradedPost, filtered);
      |trace| == (if st.memoryImportOk then 3 else 2)
      // the memory update gets the final posts and metrics, runtime included
      && (st.memoryImportOk ==> trace[1] == MemoryUpdate(posts, metrics) && metrics.runtime == elapsed)
      // a failed import: no update, the runtime never measured, partial
      && (!st.memoryImportOk ==> metrics.runtime == "0" && metrics.status == Partial)
      && metrics.postsFetched == |parsed|
      && metrics.postsAfterDedup == |deduped|
      && metrics.postsAfterFilter == |filtered|
      && (extracted.Ok? ==>
            metrics.commentsTotal == |extracted.value|
            && metrics.commentsSuccess == CountWithComments(extracted.value)
            && (metrics.degraded <==> metrics.commentsSuccess == 0 && |extracted.value| > 0))
      && (extracted.Fail? ==>
            metrics.commentsTotal == 0 && metrics.commentsSuccess == 0 && metrics.degraded)
      && (st.renderOk ==>
            trace[0] == Digest(posts, metrics.(postsInDigest := 0, runtime := "0", status := Failed))
            && metrics.postsInDigest == |posts|)
      && (!st.renderOk ==> trace[0] == FallbackDigest(RenderFailed) && metrics.postsInDigest == 0)
      && (metrics.status == Success <==> !metrics.degraded && st.memoryImportOk)
      && metrics.status != Failed
  {
    metrics := InitialMetrics(date);
    // Task 1: fetch
    if !st.fetchOk {
      metrics := metrics.(runtime := elapsed, status := Failed);
      trace := [FallbackDigest(FetchFailed), SaveMetrics(metrics)];
      SingleArtifactCounts(FallbackDigest(FetchFailed), [], metrics);
      return;
    }
    // Task 2: parse
    if st.parse.Fail? {
      metrics := metrics.(runtime := elapsed);
      trace := [FallbackDigest(ParseFailed), SaveMetrics(metrics)];
      SingleArtifactCounts(FallbackDigest(ParseFailed), [], metrics);
      return;
    }
    var posts := st.parse.value;
    metrics := metrics.(postsFetched := |posts|);
    // Task 3: deduplicate
    var deduped := st.dedup(posts);
    if deduped.Ok? {
      posts := deduped.value;
    }
    metrics := metrics.(postsAfterDedup := |posts|);
    // Task 4: enrich and filter
    var filtered := st.filter(posts);
    if filtered.Ok? {
      posts := filtered.value;
    }
    metrics := metrics.(postsAfterFilter := |posts|);
    // Task 5: extract comments
    var total, success, degraded;
    posts, total, success, degraded := ExtractStage(st.extract(posts), posts);
    metrics := metrics.(commentsTotal := total, commentsSuccess := success, degraded := degraded);
    // Tasks 6 and 7
    metrics, trace := RenderAndRemember(st.renderOk, st.memoryImportOk, posts, metrics, elapsed);
  }
}
