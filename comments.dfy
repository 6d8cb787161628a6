/** The comment extractor. For each post it reads the post's comment listing,
    cleans every top-level comment (bodies cut at 500 characters, markdown
    links reduced to their text), keeps the three best-scored ones, and marks
    the post degraded when the listing could not be had. */
module Comments {
  import opened Common
  import opened Records
  import StableSort

  const MaxCommentsPerPost: nat := 3
  const MaxBodyLength: nat := 500
  const Ellipsis: string := "..."
  const DeletedAuthor: string := "[deleted]"

  // ---------------------------------------------------------------------
  // The listing call, as data

  /** A comment child's "data" record; `None` is a missing key (for the
      flair also JSON null). */
  datatype ChildData = ChildData(
    author: Option<string>, body: Option<string>, score: Option<int>, authorFlairText: Option<string>)

  /** A listing child. `kind` or `data` is `None` when the key is missing;
      looking either up then raises. */
  datatype Child = Child(kind: Option<string>, data: Option<ChildData>)

  /** The body of a 200 reply: not JSON (decoding raises), not a list of more
      than one element (the post is left alone), a list whose
      data[1]["data"]["children"] lookup raises, or the children. */
  datatype CommentsBody = Undecodable | TooShort | ChildrenMissing | Listing(children: seq<Child>)

  /** One listing call: the request raised, or a reply with its status. */
  datatype CommentsResponse = CommentsRaised | CommentsReply(status: int, body: CommentsBody)

  // ---------------------------------------------------------------------
  // Cleaning a body

  /** body[:500] + "..." when longer than 500 characters. */
  function Truncate(b: string): (r: string)
    ensures |r| <= MaxBodyLength + |Ellipsis|
    ensures |b| <= MaxBodyLength ==> r == b
    ensures |b| > MaxBodyLength ==> r == b[..MaxBodyLength] + Ellipsis
  {
    if |b| > MaxBodyLength then b[..MaxBodyLength] + Ellipsis else b
  }

  /** The first index at or after `from` holding `c`, or |s|. */
  function FindChar(s: string, c: char, from: nat): (k: nat)
    requires from <= |s|
    ensures from <= k <= |s|
    ensures k < |s| ==> s[k] == c
    ensures forall i :: from <= i < k ==> s[i] != c
    decreases |s| - from
  {
    if from == |s| || s[from] == c then from else FindChar(s, c, from + 1)
  }

  /** A match of \[([^\]]+)\]\([^\)]+\) starting at i: the link text and
      the index just past the match. Both character classes stop at the first
      closing bracket, so the match is unique. */
  function LinkAt(s: string, i: nat): (m: Option<(string, nat)>)
    requires i <= |s|
    ensures m.Some? ==> i + 4 + |m.value.0| <= m.value.1 <= |s| && m.value.0 != []
  {
    if i < |s| && s[i] == '[' then
      var j := FindChar(s, ']', i + 1);
      if i + 1 < j && j + 1 < |s| && s[j + 1] == '(' then
        var k := FindChar(s, ')', j + 2);
        if j + 2 < k < |s| then Some((s[i + 1..j], k + 1)) else None
      else None
    else None
  }

  /** re.sub of the link pattern from position i on: left to right, each
      match replaced by its text, the scan resuming after the match. */
  function StripLinksFrom(s: string, i: nat): (r: string)
    requires i <= |s|
    ensures |r| <= |s| - i
    decreases |s| - i
  {
    if i == |s| then []
    else match LinkAt(s, i)
      case Some((text, next)) => text + StripLinksFrom(s, next)
      case None => [s[i]] + StripLinksFrom(s, i + 1)
  }

  function StripLinks(s: string): string
  {
    StripLinksFrom(s, 0)
  }

  /** The cleaned body: truncated first, links removed after. */
  function CleanBody(b: string): string
  {
    StripLinks(Truncate(b))
  }

  lemma {:induction false} StripLinksFromNoBracket(s: string, i: nat)
    requires i <= |s|
    requires forall k :: i <= k < |s| ==> s[k] != '['
    ensures StripLinksFrom(s, i) == s[i..]
    decreases |s| - i
  {
    if i < |s| {
      StripLinksFromNoBracket(s, i + 1);
    }
  }

  /** A cleaned body is at most 503 characters, and a short body without
      brackets comes through unchanged. */
  lemma CleanBodyBounds(b: string)
    ensures |CleanBody(b)| <= MaxBodyLength + |Ellipsis|
    ensures |b| <= MaxBodyLength && (forall k :: 0 <= k < |b| ==> b[k] != '[') ==> CleanBody(b) == b
  {
    if |b| <= MaxBodyLength && (forall k :: 0 <= k < |b| ==> b[k] != '[') {
      StripLinksFromNoBracket(b, 0);
    }
  }

  /** A link becomes its text. */
  lemma LinkExample()
    ensures StripLinks("[a](u)") == "a"
  {
    var s := "[a](u)";
    assert FindChar(s, ']', 1) == 2;
    assert FindChar(s, ')', 4) == 5;
    assert s[1..2] == "a";
    assert LinkAt(s, 0) == Some(("a", 6));
    assert StripLinksFrom(s, 6) == [];
  }

  /** An empty link text is no match: "[](u)" is kept as it is. */
  lemma EmptyTextKept()
    ensures StripLinks("[](u)") == "[](u)"
  {
    var s := "[](u)";
    assert FindChar(s, ']', 1) == 1;
    assert LinkAt(s, 0) == None;
    StripLinksFromNoBracket(s, 1);
  }

  /** What [^\]]+ matches: a non-empty text without a closing bracket. */
  predicate IsLinkText(t: string)
  {
    t != [] && forall k :: 0 <= k < |t| ==> t[k] != ']'
  }

  /** What [^\)]+ matches: a non-empty target without a closing parenthesis. */
  predicate IsLinkUrl(u: string)
  {
    u != [] && forall k :: 0 <= k < |u| ==> u[k] != ')'
  }

  function Link(t: string, u: string): string
  {
    "[" + t + "](" + u + ")"
  }

  /** FindChar stops at the first occurrence. */
  lemma FindCharAt(s: string, c: char, from: nat, at: nat)
    requires from <= at < |s| && s[at] == c
    requires forall q :: from <= q < at ==> s[q] != c
    ensures FindChar(s, c, from) == at
  {
  }

  /** The characters of "[t](u)" laid out from |pre| on. */
  lemma LinkChars(pre: string, t: string, u: string, post: string)
    ensures var s, i := pre + Link(t, u) + post, |pre|;
            i + |t| + |u| + 4 <= |s|
            && s[i] == '[' && s[i + |t| + 1] == ']' && s[i + |t| + 2] == '('
            && s[i + |t| + |u| + 3] == ')'
            && s[i + 1..i + 1 + |t|] == t && s[i + |t| + 3..i + |t| + 3 + |u|] == u
  {
    var s, i := pre + Link(t, u) + post, |pre|;
    assert s == pre + "[" + t + "](" + u + ")" + post;
    assert s[i + 1..i + 1 + |t|] == t by {
      assert s[..i + 1 + |t|] == pre + "[" + t;
    }
    assert s[i + |t| + 3..i + |t| + 3 + |u|] == u by {
      assert s[..i + |t| + 3 + |u|] == pre + "[" + t + "](" + u;
    }
  }

  /** FindChar passes over a stretch equal to a string without `c`. */
  lemma FindCharPast(s: string, c: char, from: nat, w: string)
    requires from + |w| < |s| && s[from..from + |w|] == w && s[from + |w|] == c
    requires forall k :: 0 <= k < |w| ==> w[k] != c
    ensures FindChar(s, c, from) == from + |w|
  {
    forall q | from <= q < from + |w| ensures s[q] != c {
      assert s[q] == w[q - from];
    }
    FindCharAt(s, c, from, from + |w|);
  }

  /** Every "[t](u)" the pattern describes is found where it starts. */
  lemma LinkAtFinds(pre: string, t: string, u: string, post: string)
    requires IsLinkText(t) && IsLinkUrl(u)
    ensures LinkAt(pre + Link(t, u) + post, |pre|) == Some((t, |pre| + |Link(t, u)|))
  {
    var s, i := pre + Link(t, u) + post, |pre|;
    LinkChars(pre, t, u, post);
    FindCharPast(s, ']', i + 1, t);
    FindCharPast(s, ')', i + |t| + 3, u);
    assert |Link(t, u)| == |t| + |u| + 4;
  }

  /** Every match LinkAt reports is such a "[t](u)", with t the text it
      returns. */
  lemma LinkAtSound(s: string, i: nat)
    requires i <= |s| && LinkAt(s, i).Some?
    ensures var (t, next) := LinkAt(s, i).value;
            IsLinkText(t) && IsLinkUrl(s[i + |t| + 3..next - 1])
            && s[i..next] == Link(t, s[i + |t| + 3..next - 1])
  {
    var (t, next) := LinkAt(s, i).value;
    var j := FindChar(s, ']', i + 1);
    var k := FindChar(s, ')', j + 2);
    assert j == i + 1 + |t| && k == next - 1;
    var u := s[j + 2..k];
    assert IsLinkUrl(u);
    var w := Link(t, u);
    assert |w| == next - i;
    forall q | 0 <= q < |w| ensures s[i..next][q] == w[q] {
      if q == 0 {
      } else if q <= |t| {
        assert w[q] == t[q - 1];
      } else if q <= |t| + 2 {
      } else if q < |w| - 1 {
        assert w[q] == u[q - |t| - 3];
      }
    }
  }

  /** A link is replaced by its text, and the scan goes on after it. */
  lemma StripLinksLink(pre: string, t: string, u: string, post: string)
    requires IsLinkText(t) && IsLinkUrl(u)
    ensures StripLinksFrom(pre + Link(t, u) + post, |pre|)
            == t + StripLinksFrom(pre + Link(t, u) + post, |pre| + |Link(t, u)|)
  {
    LinkAtFinds(pre, t, u, post);
  }

  // ---------------------------------------------------------------------
  // One post

  /** The stored comment, with "[deleted]", 0 and "" for what is missing. */
  function ToComment(d: ChildData): Comment
  {
    Comment(
      if d.author.Some? then d.author.value else DeletedAuthor,
      CleanBody(if d.body.Some? then d.body.value else ""),
      if d.score.Some? then d.score.value else 0,
      if d.authorFlairText.Some? then d.authorFlairText.value else "")
  }

  /** The loop over the children: the cleaned t1 comments in listing order,
      or `None` when a lookup raises. */
  function RawComments(children: seq<Child>): Option<seq<Comment>>
  {
    if children == [] then Some([])
    else
      var last := children[|children| - 1];
      match RawComments(children[..|children| - 1])
      case None => None
      case Some(cs) =>
        if last.kind.None? then None
        else if last.kind.value != "t1" then Some(cs)
        else if last.data.None? then None
        else Some(cs + [ToComment(last.data.value)])
  }

  function ScoreKey(c: Comment): int { c.score }

  /** sort by score, best first, ties in listing order; then the first three. */
  function TopComments(raw: seq<Comment>): seq<Comment>
  {
    Take(StableSort.SortDesc(raw, ScoreKey), MaxCommentsPerPost)
  }

  /** How one listing call changes its post. */
  function ExtractOne(p: Post, r: CommentsResponse): Post
  {
    var degraded := p.(comments := [], commentsDegraded := true);
    match r
    case CommentsRaised => degraded
    case CommentsReply(status, body) =>
      if status != 200 then degraded
      else match body
        case Undecodable => degraded
        case TooShort => p
        case ChildrenMissing => degraded
        case Listing(children) =>
          match RawComments(children)
          case None => degraded
          case Some(raw) => p.(comments := TopComments(raw))
  }

  /** extract_comments: `responses[i]` is what the listing call for
      `posts[i]` produced. */
  method ExtractComments(posts: seq<Post>, responses: seq<CommentsResponse>) returns (result: seq<Post>)
    requires |responses| == |posts|
    ensures |result| == |posts|
    ensures forall i :: 0 <= i < |posts| ==> result[i] == ExtractOne(posts[i], responses[i])
  {
    result := [];
    for k := 0 to |posts|
      invariant |result| == k
      invariant forall i :: 0 <= i < k ==> result[i] == ExtractOne(posts[i], responses[i])
    {
      var post := posts[k];
      match responses[k] {
        case CommentsRaised =>
          post := post.(comments := [], commentsDegraded := true);
        case CommentsReply(status, body) =>
          if status != 200 {
            post := post.(comments := [], commentsDegraded := true);
          } else if body.Undecodable? || body.ChildrenMissing? {
            post := post.(comments := [], commentsDegraded := true);
          } else if body.Listing? {
            var children := body.children;
            var raw, failed := CollectComments(children);
            if failed {
              post := post.(comments := [], commentsDegraded := true);
            } else {
              post := post.(comments := TopComments(raw));
            }
          }
      }
      assert post == ExtractOne(posts[k], responses[k]);
      result := result + [post];
    }
  }

  /** The inner loop over the children, stopping at the first lookup that
      raises. */
  method CollectComments(children: seq<Child>) returns (raw: seq<Comment>, failed: bool)
    ensures failed <==> RawComments(children).None?
    ensures !failed ==> RawComments(children) == Some(raw)
  {
    raw := [];
    failed := false;
    var j := 0;
    while j < |children|
      invariant 0 <= j <= |children|
      invariant RawComments(children[..j]) == Some(raw)
    {
      assert children[..j + 1][..j] == children[..j];
      var child := children[j];
      if child.kind.None? {
        failed := true;
        RawCommentsNoneExtends(children[..j + 1], children[j + 1..]);
        assert children[..j + 1] + children[j + 1..] == children;
        return;
      }
      if child.kind.value == "t1" {
        if child.data.None? {
          failed := true;
          RawCommentsNoneExtends(children[..j + 1], children[j + 1..]);
          assert children[..j + 1] + children[j + 1..] == children;
          return;
        }
        raw := raw + [ToComment(child.data.value)];
      }
      j := j + 1;
    }
    assert children[..j] == children;
  }

  lemma {:induction false} RawCommentsNoneExtends(a: seq<Child>, b: seq<Child>)
    requires RawComments(a).None?
    ensures RawComments(a + b).None?
    decreases |b|
  {
    if b == [] {
      assert a + b == a;
    } else {
      assert (a + b)[..|a + b| - 1] == a + b[..|b| - 1];
      RawCommentsNoneExtends(a, b[..|b| - 1]);
    }
  }

  // ---------------------------------------------------------------------
  // Properties

  /** A child list is usable when every child has a kind and every t1 child
      its data. */
  predicate Usable(children: seq<Child>)
  {
    forall i :: 0 <= i < |children| ==>
      children[i].kind.Some? && (children[i].kind.value == "t1" ==> children[i].data.Some?)
  }

  /** The loop over the children succeeds exactly on usable lists; it then
      yields at most one comment per child, each from a t1 child. */
  lemma RawCommentsSpec(children: seq<Child>)
    ensures RawComments(children).Some? <==> Usable(children)
    ensures RawComments(children).Some? ==>
              |RawComments(children).value| <= |children|
              && forall c :: c in RawComments(children).value ==>
                   exists i :: 0 <= i < |children| && children[i].kind == Some("t1")
                     && children[i].data.Some? && c == ToComment(children[i].data.value)
  {
    RawCommentsUsable(children);
    RawCommentsFrom(children);
  }

  lemma {:induction false} RawCommentsUsable(children: seq<Child>)
    ensures RawComments(children).Some? <==> Usable(children)
  {
    if children != [] {
      var init, last := children[..|children| - 1], children[|children| - 1];
      RawCommentsUsable(init);
      assert forall i :: 0 <= i < |init| ==> init[i] == children[i];
      if !Usable(init) {
        RawCommentsNoneExtends(init, [last]);
        assert init + [last] == children;
      }
    }
  }

  lemma {:induction false} RawCommentsFrom(children: seq<Child>)
    ensures RawComments(children).Some? ==>
              |RawComments(children).value| <= |children|
              && forall c :: c in RawComments(children).value ==>
                   exists i :: 0 <= i < |children| && children[i].kind == Some("t1")
                     && children[i].data.Some? && c == ToComment(children[i].data.value)
  {
    if children != [] {
      var init, last := children[..|children| - 1], children[|children| - 1];
      RawCommentsFrom(init);
      var r := RawComments(init);
      if r.Some? && last.kind.Some? {
        var cs := r.value;
        assert forall i :: 0 <= i < |init| ==> init[i] == children[i];
        if last.kind.value == "t1" && last.data.Some? {
          var c := ToComment(last.data.value);
          assert RawComments(children) == Some(cs + [c]);
          forall x | x in cs + [c]
            ensures exists i :: 0 <= i < |children| && children[i].kind == Some("t1")
                      && children[i].data.Some? && x == ToComment(children[i].data.value)
          {
            if x !in cs {
              assert children[|children| - 1] == last;
            }
          }
        }
      }
    }
  }

  /** A t1 child, the only kind the loop turns into a comment. */
  predicate IsCommentChild(c: Child)
  {
    c.kind == Some("t1")
  }

  /** The comment a t1 child with data becomes. */
  function ChildComment(c: Child): Comment
  {
    ToComment(if c.data.Some? then c.data.value else ChildData(None, None, None, None))
  }

  /** On a usable list the loop yields exactly [ToComment(child["data"]) for
      child in children if child["kind"] == "t1"], in listing order. */
  lemma {:induction false} RawCommentsAreT1(children: seq<Child>)
    ensures Usable(children) ==>
              RawComments(children) == Some(MapSeq(ChildComment, FilterSeq(IsCommentChild, children)))
  {
    if children != [] && Usable(children) {
      var init := children[..|children| - 1];
      assert forall i :: 0 <= i < |init| ==> init[i] == children[i];
      RawCommentsAreT1(init);
      RawCommentsLast(children, MapSeq(ChildComment, FilterSeq(IsCommentChild, init)));
      MapFilterLast(ChildComment, IsCommentChild, children);
    }
  }

  /** One more usable child adds its comment when it is a t1 child. */
  lemma RawCommentsLast(children: seq<Child>, cs: seq<Comment>)
    requires children != [] && Usable(children)
    requires RawComments(children[..|children| - 1]) == Some(cs)
    ensures var last := children[|children| - 1];
            RawComments(children) == Some(cs + (if IsCommentChild(last) then [ChildComment(last)] else []))
  {
    var last := children[|children| - 1];
    assert last.kind.Some?;
    if IsCommentChild(last) {
      assert last.data.Some?;
      assert ChildComment(last) == ToComment(last.data.value);
    } else {
      assert last.kind.value != "t1";
      assert cs + [] == cs;
    }
  }

  /** Non-t1 children are ignored. */
  lemma NonCommentIgnored(children: seq<Child>, x: Child)
    requires x.kind.Some? && x.kind.value != "t1"
    ensures RawComments(children + [x]) == RawComments(children)
  {
    assert (children + [x])[..|children|] == children;
  }

  /** The kept comments: at most three, best score first, the best-scored of
      all (no dropped comment outscores a kept one), ties in listing order,
      and every one of them from the raw list. */
  lemma TopCommentsSpec(raw: seq<Comment>)
    ensures var t := TopComments(raw);
      |t| == (if |raw| <= 3 then |raw| else 3)
      && StableSort.SortedDesc(t, ScoreKey)
      && (forall c :: c in t ==> c in raw)
      && t <= StableSort.SortDesc(raw, ScoreKey)
      && (forall i, j :: 0 <= i < |t| && |t| <= j < |raw| ==>
            StableSort.SortDesc(raw, ScoreKey)[j].score <= t[i].score)
    ensures multiset(StableSort.SortDesc(raw, ScoreKey)) == multiset(raw)
    ensures forall n :: StableSort.WithKey(StableSort.SortDesc(raw, ScoreKey), ScoreKey, n)
                        == StableSort.WithKey(raw, ScoreKey, n)
  {
    var s := StableSort.SortDesc(raw, ScoreKey);
    StableSort.SortDescProps(raw, ScoreKey);
    var t := TopComments(raw);
    forall c | c in t ensures c in raw {
      assert c in multiset(s);
    }
    forall i, j | 0 <= i < |t| && |t| <= j < |raw| ensures s[j].score <= t[i].score {
      assert t[i] == s[i];
    }
  }

  /** What extraction does to one post. A failed call (raised, non-200,
      undecodable, missing children, a child lookup that raised) empties the
      comments and sets the degraded flag; a reply that is not a list of more
      than one element leaves the post alone; a usable reply sets the top
      comments and leaves the flag as it was. Nothing else ever changes. */
  lemma ExtractOneSpec(p: Post, r: CommentsResponse)
    ensures var q := ExtractOne(p, r); SameBesidesComments(p, q)
    ensures (r.CommentsRaised? || r.status != 200 || r.body.Undecodable? || r.body.ChildrenMissing?
             || (r.body.Listing? && !Usable(r.body.children)))
            ==> ExtractOne(p, r).comments == [] && ExtractOne(p, r).commentsDegraded
    ensures r.CommentsReply? && r.status == 200 && r.body.TooShort? ==> ExtractOne(p, r) == p
    ensures r.CommentsReply? && r.status == 200 && r.body.Listing? && Usable(r.body.children) ==>
              ExtractOne(p, r).commentsDegraded == p.commentsDegraded
              && ExtractOne(p, r).comments
                 == TopComments(MapSeq(ChildComment, FilterSeq(IsCommentChild, r.body.children)))
              && |ExtractOne(p, r).comments| <= MaxCommentsPerPost
              && StableSort.SortedDesc(ExtractOne(p, r).comments, ScoreKey)
  {
    if r.CommentsReply? && r.status == 200 && r.body.Listing? {
      RawCommentsSpec(r.body.children);
      RawCommentsAreT1(r.body.children);
      if Usable(r.body.children) {
        TopCommentsSpec(RawComments(r.body.children).value);
      }
    }
  }

  /** A degraded post stays degraded whatever the reply. */
  lemma DegradedStays(p: Post, r: CommentsResponse)
    requires p.commentsDegraded
    ensures ExtractOne(p, r).commentsDegraded
  {
  }

  /** A comment missing every field gets the defaults. */
  lemma ToCommentDefaults()
    ensures ToComment(ChildData(None, None, None, None)) == Comment("[deleted]", "", 0, "")
  {
    assert Truncate("") == "";
  }
}
