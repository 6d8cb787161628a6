/** Small helpers shared by every stage: an optional value, the outcome of a
    stage that either returns or raises, and the few Python string operations
    the pipeline relies on (lower-casing, substring search, strip, split). */
module Common {

  datatype Option<T> = None | Some(value: T)

  /** What a stage call does: return a value, or raise. */
  datatype Outcome<T> = Ok(value: T) | Fail

  // ---------------------------------------------------------------------
  // Characters

  /** Python's str.isspace for one character (the whitespace set used by
      str.strip() and str.split() without arguments). */
  predicate IsSpace(c: char)
  {
    ('\t' <= c <= '\r') || ('\U{1C}' <= c <= '\U{1F}') || c == ' '
    || c == '\U{85}' || c == '\U{A0}' || c == '\U{1680}'
    || ('\U{2000}' <= c <= '\U{200A}') || c == '\U{2028}' || c == '\U{2029}'
    || c == '\U{202F}' || c == '\U{205F}' || c == '\U{3000}'
  }

  predicate IsAsciiLetter(c: char) { 'a' <= c <= 'z' }

  predicate IsDigit(c: char) { '0' <= c <= '9' }

  function LowerChar(c: char): (r: char)
    ensures 'A' <= c <= 'Z' ==> r as int == c as int + 32
    ensures !('A' <= c <= 'Z') ==> r == c
  {
    if 'A' <= c <= 'Z' then (c as int + 32) as char else c
  }

  /** str.lower(), on the ASCII letters. */
  function Lower(s: string): (r: string)
    ensures |r| == |s|
    ensures forall i :: 0 <= i < |r| ==> !('A' <= r[i] <= 'Z')
    ensures forall i :: 0 <= i < |s| && 'A' <= s[i] <= 'Z' ==> r[i] as int == s[i] as int + 32
    ensures forall i :: 0 <= i < |s| && !('A' <= s[i] <= 'Z') ==> r[i] == s[i]
  {
    seq(|s|, i requires 0 <= i < |s| => LowerChar(s[i]))
  }

  /** Lowering twice is lowering once, and a string is its own lowering
      exactly when it holds no ASCII capital. */
  lemma LowerIdempotent(s: string)
    ensures Lower(Lower(s)) == Lower(s)
    ensures Lower(s) == s <==> forall i :: 0 <= i < |s| ==> !('A' <= s[i] <= 'Z')
  {
    if forall i :: 0 <= i < |s| ==> !('A' <= s[i] <= 'Z') {
      assert forall i :: 0 <= i < |s| ==> Lower(s)[i] == s[i];
    }
    assert forall i :: 0 <= i < |s| ==> Lower(Lower(s))[i] == Lower(s)[i];
  }

  // ---------------------------------------------------------------------
  // Substrings

  predicate OccursAt(s: string, sub: string, i: int)
  {
    0 <= i && i + |sub| <= |s| && s[i..i + |sub|] == sub
  }

  /** Python's `sub in s`. */
  predicate Contains(s: string, sub: string)
  {
    exists i :: 0 <= i <= |s| && OccursAt(s, sub, i)
  }

  lemma ContainsWitness(s: string, sub: string, i: int)
    requires OccursAt(s, sub, i)
    ensures Contains(s, sub)
  {
  }

  lemma EmptyContainsNothingNonEmpty(sub: string)
    requires sub != []
    ensures !Contains([], sub)
  {
  }

  // ---------------------------------------------------------------------
  // strip() and split()

  function StripLeft(s: string): string
  {
    if s == [] || !IsSpace(s[0]) then s else StripLeft(s[1..])
  }

  function StripRight(s: string): string
  {
    if s == [] || !IsSpace(s[|s| - 1]) then s else StripRight(s[..|s| - 1])
  }

  /** str.strip(): drop leading and trailing whitespace. */
  function Strip(s: string): string
  {
    StripRight(StripLeft(s))
  }

  /** lstrip() removes exactly the leading whitespace. */
  lemma {:induction false} StripLeftSpec(s: string)
    ensures var r := StripLeft(s);
      |r| <= |s| && r == s[|s| - |r|..]
      && (r == [] || !IsSpace(r[0]))
      && forall i :: 0 <= i < |s| - |r| ==> IsSpace(s[i])
  {
    if s != [] && IsSpace(s[0]) {
      var t := s[1..];
      StripLeftSpec(t);
      var r := StripLeft(t);
      assert StripLeft(s) == r;
      assert t[|t| - |r|..] == s[|s| - |r|..];
      forall i | 0 <= i < |s| - |r| ensures IsSpace(s[i]) {
        if i > 0 {
          assert s[i] == t[i - 1];
        }
      }
    }
  }

  /** rstrip() removes exactly the trailing whitespace. */
  lemma {:induction false} StripRightSpec(s: string)
    ensures var r := StripRight(s);
      |r| <= |s| && r == s[..|r|]
      && (r == [] || !IsSpace(r[|r| - 1]))
      && forall i :: |r| <= i < |s| ==> IsSpace(s[i])
  {
    if s != [] && IsSpace(s[|s| - 1]) {
      var t := s[..|s| - 1];
      StripRightSpec(t);
      var r := StripRight(t);
      assert StripRight(s) == r;
      assert t[..|r|] == s[..|r|];
      forall i | |r| <= i < |s| ensures IsSpace(s[i]) {
        if i < |t| {
          assert s[i] == t[i];
        }
      }
    }
  }

  /** strip() leaves no whitespace at either end and only removes
      whitespace. */
  lemma StripSpec(s: string)
    ensures var r := Strip(s);
      |r| <= |s| && (r == [] || (!IsSpace(r[0]) && !IsSpace(r[|r| - 1])))
      && var k := |s| - |StripLeft(s)|; 0 <= k <= |s| - |r| && r == s[k..k + |r|]
  {
    StripLeftSpec(s);
    var l := StripLeft(s);
    StripRightSpec(l);
    var r := StripRight(l);
    var k := |s| - |l|;
    assert r == l[..|r|] && l == s[k..];
    assert l[..|r|] == s[k..k + |r|];
    if r != [] {
      assert r[0] == l[0];
      assert !IsSpace(r[|r| - 1]);
    }
  }

  /** len(s.split()): the number of maximal runs of non-whitespace, counted
      by where each run starts. */
  function WordCount(s: string): (n: nat)
    ensures n <= |s|
  {
    if s == [] then 0
    else
      var last := |s| - 1;
      WordCount(s[..last])
        + (if !IsSpace(s[last]) && (last == 0 || IsSpace(s[last - 1])) then 1 else 0)
  }

  /** re.findall(r"[a-z]+", s): the maximal runs of a..z, left to right.
      `run` is the run being read. */
  function LetterRunsFrom(s: string, run: string): (r: seq<string>)
    ensures forall w :: w in r ==> w != []
    decreases |s|
  {
    if s == [] then (if run == [] then [] else [run])
    else if IsAsciiLetter(s[0]) then LetterRunsFrom(s[1..], run + [s[0]])
    else (if run == [] then [] else [run]) + LetterRunsFrom(s[1..], [])
  }

  /** set(re.findall(r"[a-z]+", s.lower())): the distinct words of a body. */
  function WordSet(s: string): set<string>
  {
    set w | w in LetterRunsFrom(Lower(s), [])
  }

  // ---------------------------------------------------------------------
  // Decimal rendering of integers, as f"{n}" does

  function DigitChar(d: int): char
    requires 0 <= d < 10
  {
    "0123456789"[d]
  }

  function NatToString(n: nat): (r: string)
    ensures r != []
    ensures forall i :: 0 <= i < |r| ==> IsDigit(r[i])
    decreases n
  {
    if n < 10 then [DigitChar(n)] else NatToString(n / 10) + [DigitChar(n % 10)]
  }

  function IntToString(n: int): (r: string)
    ensures r != []
    ensures n >= 0 ==> IsDigit(r[0])
    ensures n < 0 ==> r[0] == '-'
  {
    if n >= 0 then NatToString(n) else "-" + NatToString(-n)
  }

  // ---------------------------------------------------------------------
  // Slicing

  /** s[:n]. */
  function Take<T>(s: seq<T>, n: nat): (r: seq<T>)
    ensures |r| == if |s| <= n then |s| else n
    ensures r <= s
  {
    if |s| <= n then s else s[..n]
  }

  /** Cutting a list that starts with x keeps x first and a prefix of the
      rest, all of it when it fits. */
  lemma TakeCons<T>(x: T, rest: seq<T>, n: nat)
    requires n >= 1
    ensures var h := Take([x] + rest, n);
      1 <= |h| <= n && h[0] == x && h[1..] <= rest
      && (|rest| < n ==> h[1..] == rest)
      && forall e :: e in h ==> e == x || e in rest
  {
    var full := [x] + rest;
    var h := Take(full, n);
    assert full[1..] == rest;
    assert h[1..] == full[1..|h|];
    forall e | e in h ensures e == x || e in rest {
      var i :| 0 <= i < |h| && h[i] == e;
      assert e == full[i];
    }
  }

  /** The four parts of a concatenation are its slices. */
  lemma ConcatParts<T>(a: seq<T>, b: seq<T>, x: T, d: seq<T>)
    ensures var r := a + b + [x] + d;
      r[..|a|] == a && r[|a|..|a| + |b|] == b && r[|a| + |b|] == x && r[|a| + |b| + 1..] == d
  {
  }

  /** [f(x) for x in s]. */
  function MapSeq<A, B>(f: A -> B, s: seq<A>): (r: seq<B>)
    ensures |r| == |s|
  {
    if s == [] then [] else MapSeq(f, s[..|s| - 1]) + [f(s[|s| - 1])]
  }

  lemma {:induction false} MapSeqSpec<A, B>(f: A -> B, s: seq<A>)
    ensures forall i :: 0 <= i < |s| ==> MapSeq(f, s)[i] == f(s[i])
  {
    if s != [] {
      MapSeqSpec(f, s[..|s| - 1]);
    }
  }

  /** [x for x in s if f(x)]. */
  function FilterSeq<T>(f: T -> bool, s: seq<T>): seq<T>
  {
    if s == [] then [] else FilterSeq(f, s[..|s| - 1]) + (if f(s[|s| - 1]) then [s[|s| - 1]] else [])
  }

  /** Mapping over the passing items grows by the last item when it passes. */
  lemma MapFilterLast<A, B>(f: A -> B, g: A -> bool, s: seq<A>)
    requires s != []
    ensures var init, last := s[..|s| - 1], s[|s| - 1];
            MapSeq(f, FilterSeq(g, s))
            == MapSeq(f, FilterSeq(g, init)) + (if g(last) then [f(last)] else [])
  {
    var init, last := s[..|s| - 1], s[|s| - 1];
    var kept := FilterSeq(g, init);
    if g(last) {
      assert FilterSeq(g, s) == kept + [last];
      assert (kept + [last])[..|kept|] == kept;
      assert MapSeq(f, kept + [last]) == MapSeq(f, kept) + [f(last)];
    } else {
      assert FilterSeq(g, s) == kept;
    }
  }

  /** Each passing item is kept as often as it occurs, and no other. */
  lemma {:induction false} FilterSeqCounts<T>(f: T -> bool, s: seq<T>)
    ensures forall x :: multiset(FilterSeq(f, s))[x] == if f(x) then multiset(s)[x] else 0
  {
    if s != [] {
      var init, last := s[..|s| - 1], s[|s| - 1];
      FilterSeqCounts(f, init);
      assert s == init + [last];
    }
  }

  lemma {:induction false} FilterSeqAllPass<T>(f: T -> bool, s: seq<T>)
    ensures forall x :: x in FilterSeq(f, s) ==> f(x) && x in s
  {
    if s != [] {
      FilterSeqAllPass(f, s[..|s| - 1]);
    }
  }

  /** A list whose items all pass is kept whole. */
  lemma {:induction false} FilterSeqOfPassing<T>(f: T -> bool, s: seq<T>)
    requires forall i :: 0 <= i < |s| ==> f(s[i])
    ensures FilterSeq(f, s) == s
  {
    if s != [] {
      var init, last := s[..|s| - 1], s[|s| - 1];
      forall i | 0 <= i < |init| ensures f(init[i]) {
        assert init[i] == s[i];
      }
      FilterSeqOfPassing(f, init);
      assert f(last);
      assert FilterSeq(f, s) == init + [last];
      assert init + [last] == s;
    }
  }
}
