/** The memory updater. It always extends the stored seen ids with the ids of
    the digest's posts, then rewrites CLAUDE.md: whatever precedes the last
    "## Last Run" line is kept, a fresh Last Run block follows, then the run
    history with the new entry on top and at most 30 entries. A failure in
    the CLAUDE.md part is swallowed. */
module Memory {
  import opened Common
  import opened Records
  import Dedup

  const LastRunHeader: string := "## Last Run"
  const HistoryHeader: string := "## Run History"
  const EntryMarker: string := "- "
  const SectionMarker: string := "##"
  const MaxHistory: nat := 30

  /** CLAUDE.md as readlines() gives it: absent, present but unreadable, or
      its lines (each keeping its newline). */
  datatype ClaudeFile = ClaudeMissing | ClaudeUnreadable | ClaudeLines(lines: seq<string>)

  /** The lines of the file _create_initial_claude writes. The first line
      holds the bytes of an em dash read as three Windows-1252 characters, as
      the source spells it. */
  const InitialLines: seq<string> := [
    "# The TV Signal \U{00E2}\U{20AC}\U{201D} Project Memory\n",
    "\n",
    "## Project\n",
    "Agentic RSS digest " + "system for /r/television.\n",
    "\n",
    "## Configuration\n",
    "- Subreddit: television\n",
    "- Min comments: 50\n",
    "- Max seen IDs: 200\n",
    "- Schedule: Daily 11 PM EST\n",
    "\n",
    "## Last Run\n",
    "No runs yet.\n",
    "\n",
    "## Run History\n",
    "No runs yet.\n"]

  // ---------------------------------------------------------------------
  // Part A: seen ids

  /** The seen ids after the update: the newest 200 of the stored ids
      followed by the posts' ids. */
  function UpdatedSeenIds(f: Dedup.SeenIdsFile, posts: seq<Post>): seq<string>
  {
    Dedup.SaveSeenIds(Dedup.LoadSeenIds(f) + Ids(posts))
  }

  /** The stored window is a suffix of the previous ids followed by the new
      ones, of length min(200, all of them). */
  lemma UpdatedSeenIdsWindow(f: Dedup.SeenIdsFile, posts: seq<Post>)
    ensures var all := Dedup.LoadSeenIds(f) + Ids(posts);
      var r := UpdatedSeenIds(f, posts);
      |r| == (if |all| <= 200 then |all| else 200)
      && r == all[|all| - |r|..]
  {
    Dedup.SaveSeenIdsWindow(Dedup.LoadSeenIds(f) + Ids(posts));
  }

  /** When the new ids alone fit in the window, all of them are kept, in
      order, at its end. */
  lemma NewIdsKept(f: Dedup.SeenIdsFile, posts: seq<Post>)
    requires |posts| <= 200
    ensures var r := UpdatedSeenIds(f, posts);
      |r| >= |posts| && r[|r| - |posts|..] == Ids(posts)
  {
    var prev, ids := Dedup.LoadSeenIds(f), Ids(posts);
    var all := prev + ids;
    UpdatedSeenIdsWindow(f, posts);
    var r := UpdatedSeenIds(f, posts);
    var n := |r|;
    assert r == all[|all| - n..];
    assert all[|prev|..] == ids;
    assert r[n - |ids|..] == all[|all| - |ids|..];
  }

  // ---------------------------------------------------------------------
  // The header scan

  function StartsWith(line: string, prefix: string): bool
  {
    prefix <= line
  }

  /** The index of the last line starting with `header`, or -1. */
  function LastStartingWith(lines: seq<string>, header: string): (r: int)
    ensures -1 <= r < |lines|
    ensures r >= 0 ==> StartsWith(lines[r], header)
    ensures forall j :: r < j < |lines| ==> !StartsWith(lines[j], header)
  {
    if lines == [] then -1
    else if StartsWith(lines[|lines| - 1], header) then |lines| - 1
    else LastStartingWith(lines[..|lines| - 1], header)
  }

  /** No line starts with both headers. */
  lemma HeadersDisjoint(line: string)
    ensures !(StartsWith(line, LastRunHeader) && StartsWith(line, HistoryHeader))
  {
    if StartsWith(line, LastRunHeader) {
      assert line[3] == 'L';
    }
  }

  /** The enumerate loop: the last "## Last Run" line and, on the elif, the
      last "## Run History" line. */
  method ScanHeaders(lines: seq<string>) returns (lastRunStart: int, historyStart: int)
    ensures lastRunStart == LastStartingWith(lines, LastRunHeader)
    ensures historyStart == LastStartingWith(lines, HistoryHeader)
  {
    lastRunStart, historyStart := -1, -1;
    for i := 0 to |lines|
      invariant lastRunStart == LastStartingWith(lines[..i], LastRunHeader)
      invariant historyStart == LastStartingWith(lines[..i], HistoryHeader)
    {
      assert lines[..i + 1][..i] == lines[..i];
      var line := lines[i];
      HeadersDisjoint(line);
      if StartsWith(line, LastRunHeader) {
        lastRunStart := i;
      } else if StartsWith(line, HistoryHeader) {
        historyStart := i;
      }
    }
    assert lines[..|lines|] == lines;
  }

  // ---------------------------------------------------------------------
  // The old history

  predicate IsEntry(line: string)
  {
    StartsWith(Strip(line), EntryMarker)
  }

  /** Entries are kept, a line starting "##" ends the section, any other line
      is skipped. */
  function HistoryEntries(rest: seq<string>): seq<string>
  {
    if rest == [] then []
    else if IsEntry(rest[0]) then [rest[0]] + HistoryEntries(rest[1..])
    else if StartsWith(rest[0], SectionMarker) then []
    else HistoryEntries(rest[1..])
  }

  /** The loop over lines[history_start + 1:], with its break. */
  method ExtractHistory(rest: seq<string>) returns (entries: seq<string>)
    ensures entries == HistoryEntries(rest)
  {
    entries := [];
    var i := 0;
    while i < |rest|
      invariant 0 <= i <= |rest|
      invariant HistoryEntries(rest) == entries + HistoryEntries(rest[i..])
    {
      assert rest[i..][1..] == rest[i + 1..];
      var line := rest[i];
      if IsEntry(line) {
        entries := entries + [line];
      } else if StartsWith(line, SectionMarker) {
        break;
      }
      i := i + 1;
    }
  }

  /** Every kept line is an entry, the kept lines keep their order, and
      nothing after the first section line that is not an entry is kept. */
  lemma {:induction false} HistoryEntriesSpec(rest: seq<string>)
    ensures forall e :: e in HistoryEntries(rest) ==> IsEntry(e) && e in rest
    ensures Dedup.IsSubsequence(HistoryEntries(rest), rest)
    ensures |HistoryEntries(rest)| <= |rest|
  {
    if rest != [] {
      HistoryEntriesSpec(rest[1..]);
      var h := HistoryEntries(rest[1..]);
      if IsEntry(rest[0]) {
        ConsSubsequence(rest[0], h, rest[1..]);
        assert [rest[0]] + rest[1..] == rest;
      } else if StartsWith(rest[0], SectionMarker) {
      } else {
        SkipSubsequence(rest[0], h, rest[1..]);
        assert [rest[0]] + rest[1..] == rest;
      }
    }
  }

  lemma {:induction false} ConsSubsequence(x: string, a: seq<string>, b: seq<string>)
    requires Dedup.IsSubsequence(a, b)
    ensures Dedup.IsSubsequence([x] + a, [x] + b)
    decreases |b|
  {
    if a == [] {
      assert [x] + a == [x];
      LastOfSingleton(x, b);
    } else if b == [] {
    } else if a[|a| - 1] == b[|b| - 1] && Dedup.IsSubsequence(a[..|a| - 1], b[..|b| - 1]) {
      ConsSubsequence(x, a[..|a| - 1], b[..|b| - 1]);
      assert ([x] + a)[..|[x] + a| - 1] == [x] + a[..|a| - 1];
      assert ([x] + b)[..|[x] + b| - 1] == [x] + b[..|b| - 1];
    } else {
      ConsSubsequence(x, a, b[..|b| - 1]);
      assert ([x] + b)[..|[x] + b| - 1] == [x] + b[..|b| - 1];
    }
  }

  /** [x] is a subsequence of [x] + b. */
  lemma {:induction false} LastOfSingleton(x: string, b: seq<string>)
    ensures Dedup.IsSubsequence([x], [x] + b)
    decreases |b|
  {
    if b != [] {
      LastOfSingleton(x, b[..|b| - 1]);
      assert ([x] + b)[..|[x] + b| - 1] == [x] + b[..|b| - 1];
    } else {
      assert [x][..0] == [];
    }
  }

  lemma {:induction false} SkipSubsequence(x: string, a: seq<string>, b: seq<string>)
    requires Dedup.IsSubsequence(a, b)
    ensures Dedup.IsSubsequence(a, [x] + b)
    decreases |b|
  {
    if a == [] {
    } else if b == [] {
    } else if a[|a| - 1] == b[|b| - 1] && Dedup.IsSubsequence(a[..|a| - 1], b[..|b| - 1]) {
      SkipSubsequence(x, a[..|a| - 1], b[..|b| - 1]);
      assert ([x] + b)[..|[x] + b| - 1] == [x] + b[..|b| - 1];
    } else {
      SkipSubsequence(x, a, b[..|b| - 1]);
      assert ([x] + b)[..|[x] + b| - 1] == [x] + b[..|b| - 1];
    }
  }

  /** An entry, once stripped, starts with "- ", so it never starts with
      "##": the two tests of the loop never both apply. */
  lemma EntryIsNoSection(line: string)
    requires IsEntry(line)
    ensures !StartsWith(line, SectionMarker)
  {
    if line != [] && !IsSpace(line[0]) {
      StripKeepsFirst(line);
    }
  }

  /** A line not starting with whitespace keeps its first character
      through strip. */
  lemma StripKeepsFirst(line: string)
    requires line != [] && !IsSpace(line[0])
    ensures Strip(line) != [] && Strip(line)[0] == line[0]
  {
    assert StripLeft(line) == line;
    StripRightSpec(line);
  }

  /** The scan ends at the first non-entry line starting "##". */
  lemma {:induction false} HistoryStops(rest: seq<string>, j: nat)
    requires j < |rest| && !IsEntry(rest[j]) && StartsWith(rest[j], SectionMarker)
    ensures HistoryEntries(rest) == HistoryEntries(rest[..j])
  {
    if j == 0 {
      assert rest[..0] == [];
    } else {
      var head, tail := rest[..j], rest[1..];
      assert tail[j - 1] == rest[j];
      HistoryStops(tail, j - 1);
      assert head[0] == rest[0];
      assert head[1..] == tail[..j - 1];
      if IsEntry(rest[0]) {
        assert HistoryEntries(rest) == [rest[0]] + HistoryEntries(tail);
        assert HistoryEntries(head) == [rest[0]] + HistoryEntries(head[1..]);
      } else if StartsWith(rest[0], SectionMarker) {
        assert HistoryEntries(rest) == [];
        assert HistoryEntries(head) == [];
      } else {
        assert HistoryEntries(rest) == HistoryEntries(tail);
        assert HistoryEntries(head) == HistoryEntries(head[1..]);
      }
    }
  }

  // ---------------------------------------------------------------------
  // The rewrite

  /** One "- " line of the Last Run block or of the history. */
  function Item(text: string): string
  {
    EntryMarker + text + "\n"
  }

  /** The texts of the Last Run block's nine "- " lines; the Status line
      ends in a blank line. */
  function LastRunTexts(m: Metrics): (texts: seq<string>)
    ensures |texts| == 9
  {
    ["Date: " + m.date,
     "Posts fetched: " + IntToString(m.postsFetched),
     "Posts after dedup: " + IntToString(m.postsAfterDedup),
     "Posts after filter: " + IntToString(m.postsAfterFilter),
     "Posts in digest: " + IntToString(m.postsInDigest),
     "Comments fetched: " + IntToString(m.commentsSuccess) + "/" + IntToString(m.commentsTotal),
     "Degraded mode: " + (if m.degraded then "yes" else "no"),
     "Runtime: " + m.runtime + "s",
     "Status: " + StatusText(m.status) + "\n"]
  }

  /** The Last Run block: its header, then one line per text. */
  function LastRunBlock(m: Metrics): (b: seq<string>)
    ensures |b| == 10
  {
    ["## Last Run\n"] + MapSeq(Item, LastRunTexts(m))
  }

  /** The new history line; `dateShort` is the clock's "%Y-%m-%d %H:%M". */
  function NewEntry(m: Metrics, dateShort: string): string
  {
    Item(dateShort + " | " + IntToString(m.postsInDigest) + " posts | " + m.runtime + "s | "
         + StatusText(m.status))
  }

  /** The kept lines before the new Last Run block: the lines before the last
      "## Last Run" line or, in a file without one, the first `fallbackLength`
      lines of a fresh initial file. */
  function Prefix(lines: seq<string>, fallbackLength: nat): seq<string>
    requires fallbackLength <= |InitialLines|
  {
    var lastRunStart := LastStartingWith(lines, LastRunHeader);
    if lastRunStart != -1 then lines[..lastRunStart] else InitialLines[..fallbackLength]
  }

  function OldHistory(lines: seq<string>): seq<string>
  {
    var historyStart := LastStartingWith(lines, HistoryHeader);
    if historyStart != -1 then HistoryEntries(lines[historyStart + 1..]) else []
  }

  function NewHistory(lines: seq<string>, m: Metrics, dateShort: string): seq<string>
  {
    Take([NewEntry(m, dateShort)] + OldHistory(lines), MaxHistory)
  }

  function RewriteWith(lines: seq<string>, m: Metrics, dateShort: string, fallbackLength: nat): seq<string>
    requires fallbackLength <= |InitialLines|
  {
    Prefix(lines, fallbackLength) + LastRunBlock(m) + ["## Run History\n"] + NewHistory(lines, m, dateShort)
  }

  /** The rewrite as the source has it: the fallback keeps the initial file's
      first 12 lines, which end with its "## Last Run" line. */
  function RewriteAsWritten(lines: seq<string>, m: Metrics, dateShort: string): seq<string>
  {
    RewriteWith(lines, m, dateShort, 12)
  }

  /** The rewrite with the fallback keeping the 11 lines before the initial
      file's "## Last Run" line, as its comment says. */
  function Rewrite(lines: seq<string>, m: Metrics, dateShort: string): seq<string>
  {
    RewriteWith(lines, m, dateShort, 11)
  }

  /** What the update leaves in CLAUDE.md. A missing file is first created
      from the initial lines; an unreadable one stays as it was. */
  function UpdatedClaude(f: ClaudeFile, m: Metrics, dateShort: string): ClaudeFile
  {
    match f
    case ClaudeMissing => ClaudeLines(RewriteAsWritten(InitialLines, m, dateShort))
    case ClaudeUnreadable => ClaudeUnreadable
    case ClaudeLines(lines) => ClaudeLines(RewriteAsWritten(lines, m, dateShort))
  }

  /** The CLAUDE.md part of update_memory, over the lines read. */
  method RewriteLines(lines: seq<string>, m: Metrics, dateShort: string) returns (newLines: seq<string>)
    ensures newLines == RewriteAsWritten(lines, m, dateShort)
  {
    var lastRunStart, historyStart := ScanHeaders(lines);
    var prefix := KeptPrefix(lines, lastRunStart);
    var history := NewHistoryLines(lines, historyStart, m, dateShort);
    newLines := prefix + LastRunBlock(m) + ["## Run History\n"] + history;
  }

  /** The lines kept before the new Last Run block; without a Last Run
      header, the first 12 lines of the freshly written initial file. */
  method KeptPrefix(lines: seq<string>, lastRunStart: int) returns (prefix: seq<string>)
    requires lastRunStart == LastStartingWith(lines, LastRunHeader)
    ensures prefix == Prefix(lines, 12)
  {
    if lastRunStart != -1 {
      prefix := lines[..lastRunStart];
    } else {
      prefix := InitialLines[..12];
    }
  }

  /** The new entry, then the old ones, cut to 30. */
  method NewHistoryLines(lines: seq<string>, historyStart: int, m: Metrics, dateShort: string)
    returns (history: seq<string>)
    requires historyStart == LastStartingWith(lines, HistoryHeader)
    ensures history == NewHistory(lines, m, dateShort)
  {
    var historyEntries := [];
    if historyStart != -1 {
      historyEntries := ExtractHistory(lines[historyStart + 1..]);
    }
    history := Take([NewEntry(m, dateShort)] + historyEntries, MaxHistory);
  }

  /** update_memory: the new seen-ids file and the new CLAUDE.md. The seen
      ids are saved whatever becomes of CLAUDE.md. */
  method UpdateMemory(seen: Dedup.SeenIdsFile, claude: ClaudeFile, posts: seq<Post>, m: Metrics, dateShort: string)
    returns (newSeen: Dedup.SeenIdsFile, newClaude: ClaudeFile)
    ensures newSeen == Dedup.Stored(Dedup.JsonList(UpdatedSeenIds(seen, posts)))
    ensures newClaude == UpdatedClaude(claude, m, dateShort)
  {
    var currentIds := Dedup.LoadSeenIds(seen);
    var newIds := currentIds;
    for k := 0 to |posts|
      invariant newIds == currentIds + Ids(posts[..k])
    {
      assert posts[..k + 1][..k] == posts[..k];
      newIds := newIds + [posts[k].id];
    }
    assert posts[..|posts|] == posts;
    newSeen := Dedup.Stored(Dedup.JsonList(Dedup.SaveSeenIds(newIds)));
    match claude {
      case ClaudeUnreadable =>
        newClaude := claude;
      case ClaudeMissing =>
        var newLines := RewriteLines(InitialLines, m, dateShort);
        newClaude := ClaudeLines(newLines);
      case ClaudeLines(lines) =>
        var newLines := RewriteLines(lines, m, dateShort);
        newClaude := ClaudeLines(newLines);
    }
  }

  // ---------------------------------------------------------------------
  // Properties of the rewrite

  lemma LastStartingWithIs(lines: seq<string>, header: string, k: int)
    requires 0 <= k < |lines| && StartsWith(lines[k], header)
    requires forall j :: k < j < |lines| ==> !StartsWith(lines[j], header)
    ensures LastStartingWith(lines, header) == k
  {
  }

  /** The headers and section lines both start with "##". */
  lemma HeaderIsSection(x: string)
    ensures StartsWith(x, LastRunHeader) ==> StartsWith(x, SectionMarker)
    ensures StartsWith(x, HistoryHeader) ==> StartsWith(x, SectionMarker)
  {
    if StartsWith(x, LastRunHeader) || StartsWith(x, HistoryHeader) {
      assert x[..2] == "##";
    }
  }

  /** A "- " line is neither a header nor a section line. */
  lemma ItemIsNoSection(text: string)
    ensures StartsWith(Item(text), EntryMarker)
    ensures !StartsWith(Item(text), SectionMarker)
    ensures !StartsWith(Item(text), LastRunHeader) && !StartsWith(Item(text), HistoryHeader)
  {
    var x := Item(text);
    assert x[0] == '-';
    assert x[..2] == EntryMarker;
    HeaderIsSection(x);
  }

  /** Only the first line of the Last Run block is a header. */
  lemma LastRunBlockLines(m: Metrics)
    ensures var b := LastRunBlock(m);
      |b| == 10 && StartsWith(b[0], LastRunHeader)
      && forall i :: 1 <= i < 10 ==>
           (StartsWith(b[i], EntryMarker) && !StartsWith(b[i], LastRunHeader) && !StartsWith(b[i], HistoryHeader))
  {
    var b, texts := LastRunBlock(m), LastRunTexts(m);
    MapSeqSpec(Item, texts);
    assert b[0][..|LastRunHeader|] == LastRunHeader;
    forall i | 1 <= i < 10
      ensures StartsWith(b[i], EntryMarker) && !StartsWith(b[i], LastRunHeader) && !StartsWith(b[i], HistoryHeader)
    {
      assert b[i] == Item(texts[i - 1]);
      ItemIsNoSection(texts[i - 1]);
    }
  }

  /** The new entry survives strip: "- " then text that is not all
      whitespace. */
  lemma NewEntryIsEntry(m: Metrics, dateShort: string)
    ensures IsEntry(NewEntry(m, dateShort))
  {
    var e := NewEntry(m, dateShort);
    var k := |dateShort| + 3;
    assert e[k] == '|';
    assert StripLeft(e) == e;
    StripRightSpec(e);
    var r := Strip(e);
    assert r == e[..|r|];
    assert |r| > k;
    assert r[..2] == e[..2] == EntryMarker;
  }

  /** The new history: the new entry first, then the old entries in order,
      at most 30 in all, every one an entry line. */
  lemma NewHistoryShape(lines: seq<string>, m: Metrics, dateShort: string)
    ensures var h := NewHistory(lines, m, dateShort);
      1 <= |h| <= MaxHistory
      && h[0] == NewEntry(m, dateShort)
      && h[1..] <= OldHistory(lines)
      && (|OldHistory(lines)| < MaxHistory ==> h[1..] == OldHistory(lines))
      && (forall e :: e in h ==> IsEntry(e))
  {
    var oldH := OldHistory(lines);
    TakeCons(NewEntry(m, dateShort), oldH, MaxHistory);
    var historyStart := LastStartingWith(lines, HistoryHeader);
    if historyStart != -1 {
      HistoryEntriesSpec(lines[historyStart + 1..]);
    }
    NewEntryIsEntry(m, dateShort);
  }

  /** All lines before the last "## Last Run" line are kept unchanged and the
      new block starts where it stood; after the block come the history
      header and the new history, and nothing else. The fallback plays no
      part here, so the corrected rewrite gives the same lines. */
  lemma PrefixKept(lines: seq<string>, m: Metrics, dateShort: string)
    requires LastStartingWith(lines, LastRunHeader) != -1
    ensures Rewrite(lines, m, dateShort) == RewriteAsWritten(lines, m, dateShort)
    ensures var n := LastStartingWith(lines, LastRunHeader);
      var r := RewriteAsWritten(lines, m, dateShort);
      r[..n] == lines[..n]
      && r[n..n + 10] == LastRunBlock(m)
      && r[n + 10] == "## Run History\n"
      && r[n + 11..] == NewHistory(lines, m, dateShort)
  {
    var n := LastStartingWith(lines, LastRunHeader);
    var b, h := LastRunBlock(m), NewHistory(lines, m, dateShort);
    assert Prefix(lines, 12) == Prefix(lines, 11) == lines[..n];
    assert |b| == 10;
    ConcatParts(lines[..n], b, "## Run History\n", h);
  }

  /** The headers of the initial file. */
  lemma InitialLinesHeaders()
    ensures forall i :: 0 <= i < 16 && i != 11 ==> !StartsWith(InitialLines[i], LastRunHeader)
    ensures StartsWith(InitialLines[11], LastRunHeader)
    ensures StartsWith(InitialLines[14], HistoryHeader) && !StartsWith(InitialLines[15], HistoryHeader)
  {
    var l := InitialLines;
    assert l[0][1] == ' ';
    assert l[2][3] == 'P';
    assert l[3][0] == 'A';
    assert l[5][3] == 'C';
    assert l[6][0] == '-';
    assert l[7][0] == '-';
    assert l[8][0] == '-';
    assert l[9][0] == '-';
    assert l[12][0] == 'N';
    assert l[14][3] == 'R';
    assert l[15][0] == 'N';
    assert l[11][..11] == LastRunHeader;
    assert l[14][..14] == HistoryHeader;
  }

  /** A missing file is rewritten from the initial lines: their
      configuration is kept, their placeholder Last Run and history are
      replaced, and the history holds the new entry alone. */
  lemma MissingFileRewrite(m: Metrics, dateShort: string)
    ensures UpdatedClaude(ClaudeMissing, m, dateShort)
            == ClaudeLines(InitialLines[..11] + LastRunBlock(m) + ["## Run History\n"] + [NewEntry(m, dateShort)])
  {
    InitialLinesHeaders();
    LastStartingWithIs(InitialLines, LastRunHeader, 11);
    assert Prefix(InitialLines, 12) == InitialLines[..11];
    InitialHistoryEmpty();
    assert NewHistory(InitialLines, m, dateShort) == [NewEntry(m, dateShort)];
  }

  /** The initial file's Run History section holds no entries. */
  lemma InitialHistoryEmpty()
    ensures OldHistory(InitialLines) == []
  {
    InitialLinesHeaders();
    LastStartingWithIs(InitialLines, HistoryHeader, 15 - 1);
    StripKeepsFirst(InitialLines[15]);
    assert !IsEntry(InitialLines[15]);
    assert !StartsWith(InitialLines[15], SectionMarker);
    var rest := InitialLines[15..];
    assert rest[0] == InitialLines[15] && rest[1..] == [];
    assert HistoryEntries(rest) == [];
  }

  /** The fallback as written keeps the initial file's "## Last Run" line
      and then appends its own: a file without a Last Run header is rewritten
      with the header twice in a row. */
  lemma FallbackDuplicatesHeader(lines: seq<string>, m: Metrics, dateShort: string)
    requires LastStartingWith(lines, LastRunHeader) == -1
    ensures var r := RewriteAsWritten(lines, m, dateShort);
      r[11] == "## Last Run\n" && r[12] == "## Last Run\n"
    ensures UpdatedClaude(ClaudeLines(lines), m, dateShort) == ClaudeLines(RewriteAsWritten(lines, m, dateShort))
  {
  }

  /** With the corrected fallback such a file gets exactly one Last Run
      header, right after the 11 kept initial lines. */
  lemma FallbackSingleHeader(lines: seq<string>, m: Metrics, dateShort: string)
    requires LastStartingWith(lines, LastRunHeader) == -1
    ensures var r := Rewrite(lines, m, dateShort);
      r[..11] == InitialLines[..11]
      && StartsWith(r[11], LastRunHeader)
      && forall i :: 0 <= i < |r| && i != 11 ==> !StartsWith(r[i], LastRunHeader)
  {
    var h := NewHistory(lines, m, dateShort);
    var prefix := InitialLines[..11];
    assert Rewrite(lines, m, dateShort) == prefix + LastRunBlock(m) + ["## Run History\n"] + h;
    InitialLinesHeaders();
    NewHistoryShape(lines, m, dateShort);
    SingleLastRunHeader(prefix, m, h);
  }

  /** A rewrite whose kept prefix has no Last Run header and whose history
      lines are entries has exactly one, at the start of the new block. */
  lemma SingleLastRunHeader(prefix: seq<string>, m: Metrics, h: seq<string>)
    requires forall i :: 0 <= i < |prefix| ==> !StartsWith(prefix[i], LastRunHeader)
    requires forall e :: e in h ==> IsEntry(e)
    ensures var r := prefix + LastRunBlock(m) + ["## Run History\n"] + h;
      r[..|prefix|] == prefix
      && StartsWith(r[|prefix|], LastRunHeader)
      && forall i :: 0 <= i < |r| && i != |prefix| ==> !StartsWith(r[i], LastRunHeader)
  {
    var b := LastRunBlock(m);
    var r := prefix + b + ["## Run History\n"] + h;
    var n := |prefix|;
    LastRunBlockLines(m);
    forall i | 0 <= i < |r| && i != n ensures !StartsWith(r[i], LastRunHeader) {
      if i < n {
        assert r[i] == prefix[i];
      } else if i < n + 10 {
        assert r[i] == b[i - n];
      } else if i == n + 10 {
        assert r[i][3] == 'R';
      } else {
        var e := h[i - n - 11];
        assert r[i] == e;
        assert e in h;
        EntryIsNoSection(e);
        HeaderIsSection(e);
      }
    }
    assert r[n] == b[0];
  }
}
