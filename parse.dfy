/** The item parser: turns the feed's entries into posts. An entry's id comes
    from its own id attribute or, when that is missing, empty or a URL, from
    the "/comments/<id>" part of its link; an entry with no id at all is
    skipped. Every other field gets its documented default. */
module Parse {
  import opened Common
  import opened Records

  /** A feed entry as the feed library hands it over; any attribute may be
      absent. `authorDetailName` is entry.author_detail.name when both the
      detail and its name exist. Titles arrive already unescaped. */
  datatype Entry = Entry(
    id: Option<string>,
    link: Option<string>,
    title: Option<string>,
    authorDetailName: Option<string>,
    author: Option<string>,
    published: Option<string>,
    updated: Option<string>)

  const CommentsMarker: string := "/comments/"
  const DeletedAuthor: string := "[deleted]"
  const Subreddit: string := "television"

  function OrEmpty(o: Option<string>): string
  {
    if o.Some? then o.value else ""
  }

  // ---------------------------------------------------------------------
  // The pattern /comments/([a-z0-9]+), searched left to right

  predicate IsIdChar(c: char) { 'a' <= c <= 'z' || '0' <= c <= '9' }

  /** The longest run of id characters at the front of `s`. */
  function IdRun(s: string): (r: string)
    ensures r <= s
    ensures forall i :: 0 <= i < |r| ==> IsIdChar(r[i])
    ensures |r| == |s| || !IsIdChar(s[|r|])
  {
    if s == [] || !IsIdChar(s[0]) then [] else [s[0]] + IdRun(s[1..])
  }

  /** The pattern matches with its marker at position i. */
  predicate MatchAt(link: string, i: int)
  {
    OccursAt(link, CommentsMarker, i) && i + |CommentsMarker| < |link|
    && IsIdChar(link[i + |CommentsMarker|])
  }

  function SearchFrom(link: string, from: nat): Option<string>
    requires from <= |link|
    decreases |link| - from
  {
    if from == |link| then None
    else if MatchAt(link, from) then Some(IdRun(link[from + |CommentsMarker|..]))
    else SearchFrom(link, from + 1)
  }

  /** re.search(r"/comments/([a-z0-9]+)", link).group(1). */
  function CommentsId(link: string): Option<string>
  {
    SearchFrom(link, 0)
  }

  lemma {:induction false} SearchFromSpec(link: string, from: nat)
    requires from <= |link|
    ensures SearchFrom(link, from).None? <==> forall i :: from <= i < |link| ==> !MatchAt(link, i)
    ensures SearchFrom(link, from).Some? ==>
              exists i :: from <= i < |link| && MatchAt(link, i)
                && (forall j :: from <= j < i ==> !MatchAt(link, j))
                && SearchFrom(link, from).value == IdRun(link[i + |CommentsMarker|..])
    decreases |link| - from
  {
    if from < |link| && !MatchAt(link, from) {
      SearchFromSpec(link, from + 1);
      SearchFromStep(link, from);
    }
  }

  /** One step past a position where the pattern does not match. */
  lemma SearchFromStep(link: string, from: nat)
    requires from < |link| && !MatchAt(link, from)
    requires SearchFrom(link, from + 1).None? <==> forall i :: from + 1 <= i < |link| ==> !MatchAt(link, i)
    requires SearchFrom(link, from + 1).Some? ==>
              exists i :: from + 1 <= i < |link| && MatchAt(link, i)
                && (forall j :: from + 1 <= j < i ==> !MatchAt(link, j))
                && SearchFrom(link, from + 1).value == IdRun(link[i + |CommentsMarker|..])
    ensures SearchFrom(link, from).None? <==> forall i :: from <= i < |link| ==> !MatchAt(link, i)
    ensures SearchFrom(link, from).Some? ==>
              exists i :: from <= i < |link| && MatchAt(link, i)
                && (forall j :: from <= j < i ==> !MatchAt(link, j))
                && SearchFrom(link, from).value == IdRun(link[i + |CommentsMarker|..])
  {
    var r := SearchFrom(link, from + 1);
    assert SearchFrom(link, from) == r;
    if r.Some? {
      var i :| from + 1 <= i < |link| && MatchAt(link, i)
               && (forall j :: from + 1 <= j < i ==> !MatchAt(link, j))
               && r.value == IdRun(link[i + |CommentsMarker|..]);
      assert forall j :: from <= j < i ==> !MatchAt(link, j);
    }
  }

  /** The search finds nothing exactly when no marker is followed by an id
      character; otherwise it yields the non-empty id run after the leftmost
      such marker. */
  lemma CommentsIdSpec(link: string)
    ensures CommentsId(link).None? <==> forall i :: 0 <= i < |link| ==> !MatchAt(link, i)
    ensures CommentsId(link).Some? ==>
              var g := CommentsId(link).value;
              g != [] && (forall i :: 0 <= i < |g| ==> IsIdChar(g[i]))
              && exists i :: 0 <= i < |link| && MatchAt(link, i)
                   && (forall j :: 0 <= j < i ==> !MatchAt(link, j))
                   && g == IdRun(link[i + |CommentsMarker|..])
  {
    SearchFromSpec(link, 0);
  }

  // ---------------------------------------------------------------------
  // One entry

  /** The post id the parser settles on; "" means the entry is skipped. */
  function DeriveId(e: Entry): string
  {
    var own := OrEmpty(e.id);
    if own == [] || "http" <= own then
      match CommentsId(OrEmpty(e.link))
      case Some(g) => "t3_" + g
      case None => own
    else own
  }

  /** author_detail.name, else author, else "[deleted]". */
  function RawAuthor(e: Entry): string
  {
    if e.authorDetailName.Some? then e.authorDetailName.value
    else if e.author.Some? then e.author.value
    else DeletedAuthor
  }

  /** Remove one leading "/u/" or, failing that, one leading "u/". */
  function StripUserPrefix(a: string): string
  {
    if "/u/" <= a then a[3..] else if "u/" <= a then a[2..] else a
  }

  /** published, else updated, else "". */
  function Created(e: Entry): string
  {
    if e.published.Some? then e.published.value
    else if e.updated.Some? then e.updated.value
    else ""
  }

  function ParseEntry(e: Entry): Option<Post>
  {
    var id := DeriveId(e);
    if id == [] then None
    else Some(Post(id, OrEmpty(e.title), OrEmpty(e.link), 0, 0, "",
                   StripUserPrefix(RawAuthor(e)), Created(e), Subreddit, [], false))
  }

  /** The posts of a feed: one per entry with an id, in feed order. */
  function ParseEntries(entries: seq<Entry>): seq<Post>
  {
    if entries == [] then []
    else
      var last := entries[|entries| - 1];
      ParseEntries(entries[..|entries| - 1])
        + (match ParseEntry(last) case Some(p) => [p] case None => [])
  }

  /** parse: the loop over feed.entries. */
  method Parse(entries: seq<Entry>) returns (posts: seq<Post>)
    ensures posts == ParseEntries(entries)
    ensures forall i :: 0 <= i < |posts| ==> posts[i].id != []
    ensures |posts| <= |entries|
  {
    posts := [];
    for k := 0 to |entries|
      invariant posts == ParseEntries(entries[..k])
    {
      assert entries[..k + 1][..k] == entries[..k];
      var post := ParseOne(entries[k]);
      if post.None? {
        continue;
      }
      posts := posts + [post.value];
    }
    assert entries[..|entries|] == entries;
    ParsedIdsNonEmpty(entries);
    ParseEntriesLength(entries);
  }

  /** The body of the loop for one entry; None where it continues. */
  method ParseOne(entry: Entry) returns (post: Option<Post>)
    ensures post == ParseEntry(entry)
  {
    var postId := "";
    if entry.id.Some? {
      postId := entry.id.value;
    }
    if postId == [] || "http" <= postId {
      var link := if entry.link.Some? then entry.link.value else "";
      var m := CommentsId(link);
      if m.Some? {
        postId := "t3_" + m.value;
      }
    }
    assert postId == DeriveId(entry);
    if postId == [] {
      return None;
    }
    var title := if entry.title.Some? then entry.title.value else "";
    var url := if entry.link.Some? then entry.link.value else "";
    var author := DeletedAuthor;
    if entry.authorDetailName.Some? {
      author := entry.authorDetailName.value;
    } else if entry.author.Some? {
      author := entry.author.value;
    }
    if "/u/" <= author {
      author := author[3..];
    } else if "u/" <= author {
      author := author[2..];
    }
    var created := if entry.published.Some? then entry.published.value
                   else if entry.updated.Some? then entry.updated.value
                   else "";
    assert author == StripUserPrefix(RawAuthor(entry));
    assert created == Created(entry);
    post := Some(Post(postId, title, url, 0, 0, "", author, created, Subreddit, [], false));
  }

  // ---------------------------------------------------------------------
  // Properties

  lemma {:induction false} ParsedIdsNonEmpty(entries: seq<Entry>)
    ensures forall p :: p in ParseEntries(entries) ==> p.id != []
  {
    if entries != [] {
      ParsedIdsNonEmpty(entries[..|entries| - 1]);
    }
  }

  lemma {:induction false} ParseEntriesLength(entries: seq<Entry>)
    ensures |ParseEntries(entries)| <= |entries|
  {
    if entries != [] {
      ParseEntriesLength(entries[..|entries| - 1]);
    }
  }

  /** The posts of two feeds read one after the other are the posts of the
      first followed by those of the second: feed order is kept and each entry
      contributes its own post, or nothing. */
  lemma {:induction false} ParseEntriesAppend(a: seq<Entry>, b: seq<Entry>)
    ensures ParseEntries(a + b) == ParseEntries(a) + ParseEntries(b)
    decreases |b|
  {
    if b == [] {
      assert a + b == a;
    } else {
      assert (a + b)[..|a + b| - 1] == a + b[..|b| - 1];
      ParseEntriesAppend(a, b[..|b| - 1]);
    }
  }

  /** An entry is skipped exactly when neither its own id nor its link gives
      one. */
  lemma SkipRule(e: Entry)
    ensures ParseEntry(e).None? <==> OrEmpty(e.id) == [] && CommentsId(OrEmpty(e.link)).None?
  {
  }

  /** A missing, empty or URL id is replaced by "t3_" and the first id the
      link's "/comments/" pattern yields. */
  lemma IdFromLink(e: Entry, g: string)
    requires OrEmpty(e.id) == [] || "http" <= OrEmpty(e.id)
    requires CommentsId(OrEmpty(e.link)) == Some(g)
    ensures ParseEntry(e).Some? && ParseEntry(e).value.id == "t3_" + g
  {
  }

  /** A URL id is kept when the link has no "/comments/" id: the entry is not
      skipped. */
  lemma HttpIdKept(e: Entry)
    requires e.id.Some? && "http" <= e.id.value
    requires CommentsId(OrEmpty(e.link)).None?
    ensures ParseEntry(e).Some? && ParseEntry(e).value.id == e.id.value
  {
  }

  /** Any other non-empty id is used as it is. */
  lemma OwnIdKept(e: Entry)
    requires e.id.Some? && e.id.value != [] && !("http" <= e.id.value)
    ensures ParseEntry(e).Some? && ParseEntry(e).value.id == e.id.value
  {
  }

  /** Where the author comes from, with exactly one user prefix removed. */
  lemma AuthorRule(e: Entry, p: Post)
    requires ParseEntry(e) == Some(p)
    ensures e.authorDetailName.Some? ==> p.author == StripUserPrefix(e.authorDetailName.value)
    ensures e.authorDetailName.None? && e.author.Some? ==> p.author == StripUserPrefix(e.author.value)
    ensures e.authorDetailName.None? && e.author.None? ==> p.author == DeletedAuthor
  {
    assert DeletedAuthor[0] == '[';
  }

  lemma StripUserPrefixOnce(x: string)
    ensures StripUserPrefix("/u/" + x) == x
    ensures StripUserPrefix("u/" + x) == x
    ensures StripUserPrefix("/u//u/" + x) == "/u/" + x
  {
    assert ("/u/" + x)[3..] == x;
    assert ("u/" + x)[2..] == x;
    assert ("u/" + x)[0] == 'u';
    assert ("/u//u/" + x)[3..] == "/u/" + x;
  }

  /** Every parsed post starts unenriched, without comments, in the fixed
      subreddit, with title, url and creation time defaulted to "". */
  lemma ParsedDefaults(e: Entry, p: Post)
    requires ParseEntry(e) == Some(p)
    ensures p.score == 0 && p.numComments == 0 && p.flair == "" && p.subreddit == "television"
    ensures p.comments == [] && !p.commentsDegraded
    ensures p.title == OrEmpty(e.title) && p.url == OrEmpty(e.link)
    ensures p.created == (if e.published.Some? then e.published.value
                          else if e.updated.Some? then e.updated.value else "")
  {
  }

  /** The parser does not make ids unique: two entries with the same id give
      two posts with that id. */
  lemma DuplicateIdsKept(e: Entry)
    requires ParseEntry(e).Some?
    ensures |ParseEntries([e, e])| == 2
    ensures ParseEntries([e, e])[0].id == ParseEntries([e, e])[1].id
  {
    var p := ParseEntry(e).value;
    assert [e][..0] == [];
    assert ParseEntries([e]) == [p];
    assert [e, e][..1] == [e];
    assert ParseEntries([e, e]) == [p, p];
  }

  lemma LinkExample()
    ensures CommentsId("/comments/ab1/x") == Some("ab1")
  {
    var a := "/comments/ab1/x";
    assert MatchAt(a, 0);
    assert a[10..] == "ab1/x";
    assert IdRun("ab1/x") == "ab1";
  }
}
