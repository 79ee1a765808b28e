/** `cleanJson` of services/geminiService.ts: pick the JSON text out of a
    model reply. The global regular expression /```(?:json)?\s*(\{[\s\S]*?\})\s*```/g
    is written out as functions that say where a match starts and ends; the
    methods scan the string with index loops and are proved to compute them. */
module CleanJson {
  import opened Common
  import opened Text

  const Fence := "```"

  /** A fence "```" starts at index `i`. */
  predicate FenceAt(s: string, i: nat) {
    i + 3 <= |s| && s[i] == '`' && s[i + 1] == '`' && s[i + 2] == '`'
  }

  /** The tag "json" starts at index `i`. */
  predicate JsonTagAt(s: string, i: nat) {
    i + 4 <= |s| && s[i] == 'j' && s[i + 1] == 's' && s[i + 2] == 'o' && s[i + 3] == 'n'
  }

  // ---------------------------------------------------------------------
  // The regular expression, position by position
  // ---------------------------------------------------------------------

  /** Greedy `\s*` from index `i`: the first index at or after `i` that is not whitespace. */
  function SkipSpaces(s: string, i: nat): (j: nat)
    requires i <= |s|
    ensures i <= j <= |s|
    ensures forall k :: i <= k < j ==> IsSpace(s[k])
    ensures j == |s| || !IsSpace(s[j])
    decreases |s| - i
  {
    if i < |s| && IsSpace(s[i]) then SkipSpaces(s, i + 1) else i
  }

  /** `\s*\{` from index `p`: the index of the brace. */
  function BraceAfter(s: string, p: nat): (r: Option<nat>)
    requires p <= |s|
    ensures r.Some? ==> p <= r.value < |s| && s[r.value] == '{'
  {
    var b := SkipSpaces(s, p);
    if b < |s| && s[b] == '{' then Some(b) else None
  }

  /** "```" then `(?:json)?\s*\{` at index `i`: the index of the opening brace.
      The tagged alternative is tried first; when "json" follows the fence the
      untagged one cannot succeed, because `j` is neither whitespace nor `{`,
      so backtracking into the optional group never yields another match. */
  function OpenAt(s: string, i: nat): (r: Option<nat>)
    ensures r.Some? ==> FenceAt(s, i) && i + 3 <= r.value < |s| && s[r.value] == '{'
  {
    if !FenceAt(s, i) then None
    else if JsonTagAt(s, i + 3) && BraceAfter(s, i + 7).Some? then BraceAfter(s, i + 7)
    else BraceAfter(s, i + 3)
  }

  /** Where a fenced block closes: end of the capture (just past its `}`) and end of the match. */
  datatype Close = Close(capEnd: nat, end: nat)

  /** Lazy `[\s\S]*?\}` followed by `\s*```` from index `e`: the first `}` at
      or after `e` that is followed by optional whitespace and a fence. */
  function CloseFrom(s: string, e: nat): (r: Option<Close>)
    requires e <= |s|
    ensures r.Some? ==> e < r.value.capEnd <= r.value.end <= |s|
    ensures r.Some? ==> r.value.capEnd + 3 <= r.value.end
    ensures r.Some? ==> s[r.value.capEnd - 1] == '}' && FenceAt(s, r.value.end - 3)
    decreases |s| - e
  {
    if e == |s| then None
    else if s[e] == '}' && FenceAt(s, SkipSpaces(s, e + 1)) then
      Some(Close(e + 1, SkipSpaces(s, e + 1) + 3))
    else CloseFrom(s, e + 1)
  }

  /** A match of the regular expression starting at `start`: the capture group is `s[capStart..capEnd]`,
      the whole match ends at `end`. */
  datatype Match = Match(start: nat, capStart: nat, capEnd: nat, end: nat)

  /** The match of the regular expression that starts at index `i`, if any. */
  function MatchAt(s: string, i: nat): (r: Option<Match>)
    requires i <= |s|
    ensures r.Some? ==> r.value.start == i
    ensures r.Some? ==> i < r.value.capStart < r.value.capEnd <= r.value.end <= |s|
    ensures r.Some? ==> s[r.value.capStart] == '{' && s[r.value.capEnd - 1] == '}'
    ensures r.Some? ==> FenceAt(s, i)
  {
    match OpenAt(s, i)
    case None => None
    case Some(b) =>
      match CloseFrom(s, b + 1)
      case None => None
      case Some(c) => Some(Match(i, b, c.capEnd, c.end))
  }

  /** `matchAll` from index `i`, keeping only the latest match: after a match,
      the search resumes where that match ended. */
  function LastMatchFrom(s: string, i: nat, last: Option<Match>): Option<Match>
    requires i <= |s|
    decreases |s| - i
  {
    if i == |s| then last
    else
      match MatchAt(s, i)
      case Some(m) => LastMatchFrom(s, m.end, Some(m))
      case None => LastMatchFrom(s, i + 1, last)
  }

  /** `matches[matches.length - 1][1]`, when there is a match. */
  function LastFencedBlock(s: string): Option<string> {
    match LastMatchFrom(s, 0, None)
    case None => None
    case Some(m) =>
      MatchBounds(s, 0, None);
      Some(s[m.capStart..m.capEnd])
  }

  // ---------------------------------------------------------------------
  // The brace fallback
  // ---------------------------------------------------------------------

  /** The first index at or after `i` holding `c`, or -1. */
  function IndexFrom(s: string, c: char, i: nat): (k: int)
    requires i <= |s|
    ensures k == -1 || (i <= k < |s| && s[k] == c)
    ensures forall j :: i <= j < |s| && (k == -1 || j < k) ==> s[j] != c
    decreases |s| - i
  {
    if i == |s| then -1
    else if s[i] == c then i
    else IndexFrom(s, c, i + 1)
  }

  /** The last index below `n` holding `c`, or -1. */
  function LastBelow(s: string, c: char, n: nat): (k: int)
    requires n <= |s|
    ensures -1 <= k < n && (k >= 0 ==> s[k] == c)
    ensures forall j :: k < j < n ==> s[j] != c
  {
    if n == 0 then -1
    else if s[n - 1] == c then n - 1
    else LastBelow(s, c, n - 1)
  }

  /** `s.indexOf(c)` */
  function IndexOfChar(s: string, c: char): (k: int)
    ensures -1 <= k < |s|
    ensures k >= 0 ==> s[k] == c
    ensures forall j :: 0 <= j < |s| && (k == -1 || j < k) ==> s[j] != c
  {
    IndexFrom(s, c, 0)
  }

  /** `s.lastIndexOf(c)` */
  function LastIndexOfChar(s: string, c: char): (k: int)
    ensures -1 <= k < |s|
    ensures k >= 0 ==> s[k] == c
    ensures forall j :: k < j < |s| ==> s[j] != c
  {
    LastBelow(s, c, |s|)
  }

  /** `s.substring(a, b)`: both bounds are clamped to the string, and swapped
      when the first exceeds the second. */
  function Substring(s: string, a: int, b: int): (r: string)
    ensures 0 <= a <= b <= |s| ==> r == s[a..b]
    ensures 0 <= b <= a <= |s| ==> r == s[b..a]
  {
    var lo := if a < 0 then 0 else if a > |s| then |s| else a;
    var hi := if b < 0 then 0 else if b > |s| then |s| else b;
    if lo <= hi then s[lo..hi] else s[hi..lo]
  }

  /** `cleanJson(str)`: the last fenced JSON block; failing that, the text from
      the first `{` through the last `}`; failing that, the text unchanged. */
  function CleanJsonSpec(s: string): string {
    match LastFencedBlock(s)
    case Some(block) => block
    case None =>
      var first := IndexOfChar(s, '{');
      var last := LastIndexOfChar(s, '}');
      if first != -1 && last != -1 then Substring(s, first, last + 1) else s
  }

  // ---------------------------------------------------------------------
  // The scan, as index loops
  // ---------------------------------------------------------------------

  method SkipSpacesFrom(s: string, i: nat) returns (j: nat)
    requires i <= |s|
    ensures j == SkipSpaces(s, i)
  {
    j := i;
    while j < |s| && IsSpace(s[j])
      invariant i <= j <= |s|
      invariant SkipSpaces(s, j) == SkipSpaces(s, i)
      decreases |s| - j
    {
      j := j + 1;
    }
  }

  /** Tries the opening part of the regular expression at index `i`. */
  method OpenAtIndex(s: string, i: nat) returns (r: Option<nat>)
    ensures r == OpenAt(s, i)
  {
    if !FenceAt(s, i) {
      return None;
    }
    if JsonTagAt(s, i + 3) {
      var b := SkipSpacesFrom(s, i + 7);
      if b < |s| && s[b] == '{' {
        return Some(b);
      }
    }
    var b := SkipSpacesFrom(s, i + 3);
    r := if b < |s| && s[b] == '{' then Some(b) else None;
  }

  /** Searches lazily for the closing part of the regular expression from index `e`. */
  method CloseFromIndex(s: string, e0: nat) returns (r: Option<Close>)
    requires e0 <= |s|
    ensures r == CloseFrom(s, e0)
  {
    var e := e0;
    while e < |s|
      invariant e0 <= e <= |s|
      invariant CloseFrom(s, e) == CloseFrom(s, e0)
      decreases |s| - e
    {
      if s[e] == '}' {
        var f := SkipSpacesFrom(s, e + 1);
        if FenceAt(s, f) {
          return Some(Close(e + 1, f + 3));
        }
      }
      e := e + 1;
    }
    return None;
  }

  /** Tries the regular expression at index `i`. */
  method MatchAtIndex(s: string, i: nat) returns (r: Option<Match>)
    requires i <= |s|
    ensures r == MatchAt(s, i)
  {
    var open := OpenAtIndex(s, i);
    if open.None? {
      return None;
    }
    var close := CloseFromIndex(s, open.value + 1);
    r := if close.None? then None else Some(Match(i, open.value, close.value.capEnd, close.value.end));
  }

  /** The capture of the last match of the global regular expression. */
  method FindLastBlock(s: string) returns (r: Option<string>)
    ensures r == LastFencedBlock(s)
  {
    var i := 0;
    var last: Option<Match> := None;
    while i < |s|
      invariant i <= |s|
      invariant LastMatchFrom(s, i, last) == LastMatchFrom(s, 0, None)
      invariant last.Some? ==> last.value.capStart < last.value.capEnd <= |s|
      decreases |s| - i
    {
      var m := MatchAtIndex(s, i);
      if m.Some? {
        last := m;
        i := m.value.end;
      } else {
        i := i + 1;
      }
    }
    r := if last.Some? then Some(s[last.value.capStart..last.value.capEnd]) else None;
  }

  method IndexOf(s: string, c: char) returns (k: int)
    ensures k == IndexOfChar(s, c)
  {
    k := 0;
    while k < |s| && s[k] != c
      invariant k <= |s| && IndexFrom(s, c, k) == IndexOfChar(s, c)
    {
      k := k + 1;
    }
    if k == |s| {
      k := -1;
    }
  }

  method LastIndexOf(s: string, c: char) returns (k: int)
    ensures k == LastIndexOfChar(s, c)
  {
    k := |s| - 1;
    while k >= 0 && s[k] != c
      invariant -1 <= k < |s| && LastBelow(s, c, k + 1) == LastIndexOfChar(s, c)
    {
      k := k - 1;
    }
  }

  /** `cleanJson` as the service runs it. */
  method Clean(s: string) returns (r: string)
    ensures r == CleanJsonSpec(s)
  {
    var block := FindLastBlock(s);
    if block.Some? {
      return block.value;
    }
    var first := IndexOf(s, '{');
    var last := LastIndexOf(s, '}');
    if first != -1 && last != -1 {
      r := Substring(s, first, last + 1);
    } else {
      r := s;
    }
  }

  // ---------------------------------------------------------------------
  // Properties
  // ---------------------------------------------------------------------

  /** The capture of `m` lies inside `s` and runs from a `{` to a `}`. */
  predicate Braced(s: string, m: Match) {
    m.capStart < m.capEnd <= |s| && s[m.capStart] == '{' && s[m.capEnd - 1] == '}'
  }

  /** Every match the scan keeps lies inside the string, braces included. */
  lemma {:induction false} MatchBounds(s: string, i: nat, last: Option<Match>)
    requires i <= |s|
    requires last.Some? ==> Braced(s, last.value)
    ensures var r := LastMatchFrom(s, i, last);
      r.Some? ==> Braced(s, r.value)
    decreases |s| - i
  {
    if i < |s| {
      match MatchAt(s, i)
      case Some(m) => MatchBounds(s, m.end, Some(m));
      case None => MatchBounds(s, i + 1, last);
    }
  }

  /** The successive matches of the global scan (`matchAll`) from `i`:
      after a match the scan resumes at its end, otherwise one character on. */
  function Matches(s: string, i: nat): seq<Match>
    requires i <= |s|
    decreases |s| - i
  {
    if i == |s| then []
    else match MatchAt(s, i)
      case Some(m) => [m] + Matches(s, m.end)
      case None => Matches(s, i + 1)
  }

  /** No match starts at a position of `s` in [a, b), checked position by position. */
  predicate NoMatchIn(s: string, a: nat, b: nat)
    decreases b - a
  {
    a >= b || a > |s| || (MatchAt(s, a).None? && NoMatchIn(s, a + 1, b))
  }

  /** `NoMatchIn` says that no position of the range starts a match. */
  lemma {:induction false} NoMatchInMeans(s: string, a: nat, b: nat)
    ensures NoMatchIn(s, a, b) <==> forall k :: a <= k < b && k <= |s| ==> MatchAt(s, k).None?
    decreases b - a
  {
    if a < b && a <= |s| {
      NoMatchInMeans(s, a + 1, b);
    }
  }

  /** One step of both scans at a position where a match starts. */
  lemma ScansHit(s: string, i: nat, last: Option<Match>)
    requires i < |s| && MatchAt(s, i).Some?
    ensures Matches(s, i) == [MatchAt(s, i).value] + Matches(s, MatchAt(s, i).value.end)
    ensures LastMatchFrom(s, i, last) == LastMatchFrom(s, MatchAt(s, i).value.end, MatchAt(s, i))
  {
  }

  /** One step of both scans at a position where no match starts. */
  lemma ScansMiss(s: string, i: nat, last: Option<Match>)
    requires i < |s| && MatchAt(s, i).None?
    ensures Matches(s, i) == Matches(s, i + 1)
    ensures LastMatchFrom(s, i, last) == LastMatchFrom(s, i + 1, last)
  {
  }

  /** Every element of the global scan is the match at its start, at or
      after `i`. */
  lemma {:induction false} MatchesAreMatches(s: string, i: nat)
    requires i <= |s|
    ensures var r := Matches(s, i);
      forall j :: 0 <= j < |r| ==> i <= r[j].start <= |s| && MatchAt(s, r[j].start) == Some(r[j])
    decreases |s| - i
  {
    if i < |s| {
      var mi := MatchAt(s, i);
      if mi.Some? {
        var m := mi.value;
        ScansHit(s, i, None);
        MatchesAreMatches(s, m.end);
        var rest := Matches(s, m.end);
        var r := [m] + rest;
        assert r[0] == m && m.start == i;
        forall j | 0 < j < |r|
          ensures i <= r[j].start <= |s| && MatchAt(s, r[j].start) == Some(r[j])
        {
          assert r[j] == rest[j - 1];
        }
      } else {
        ScansMiss(s, i, None);
        MatchesAreMatches(s, i + 1);
      }
    }
  }

  /** Each match of the global scan ends at or before the next one starts. */
  lemma {:induction false} MatchesInOrder(s: string, i: nat)
    requires i <= |s|
    ensures var r := Matches(s, i);
      forall j :: 0 <= j < |r| - 1 ==> r[j].end <= r[j + 1].start
    decreases |s| - i
  {
    if i < |s| {
      var mi := MatchAt(s, i);
      if mi.Some? {
        var m := mi.value;
        ScansHit(s, i, None);
        MatchesInOrder(s, m.end);
        MatchesAreMatches(s, m.end);
        var rest := Matches(s, m.end);
        var r := [m] + rest;
        forall j | 0 <= j < |r| - 1
          ensures r[j].end <= r[j + 1].start
        {
          if j > 0 {
            assert r[j] == rest[j - 1] && r[j + 1] == rest[j];
          } else {
            assert r[1] == rest[0];
          }
        }
      } else {
        ScansMiss(s, i, None);
        MatchesInOrder(s, i + 1);
      }
    }
  }

  /** No match starts from `i` up to the first one the global scan finds,
      or up to the end when it finds none. */
  lemma {:induction false} NoMatchBeforeFirst(s: string, i: nat)
    requires i <= |s|
    ensures var r := Matches(s, i);
      NoMatchIn(s, i, if |r| == 0 then |s| + 1 else r[0].start)
    decreases |s| - i
  {
    if i == |s| {
      assert MatchAt(s, i).None?;
    } else {
      var mi := MatchAt(s, i);
      if mi.Some? {
        ScansHit(s, i, None);
      } else {
        ScansMiss(s, i, None);
        NoMatchBeforeFirst(s, i + 1);
      }
    }
  }

  /** No match starts between the end of one match the global scan finds
      and the start of the next. */
  lemma {:induction false} NoMatchBetween(s: string, i: nat)
    requires i <= |s|
    ensures var r := Matches(s, i);
      forall j :: 0 <= j < |r| - 1 ==> NoMatchIn(s, r[j].end, r[j + 1].start)
    decreases |s| - i
  {
    if i < |s| {
      var mi := MatchAt(s, i);
      if mi.Some? {
        var m := mi.value;
        ScansHit(s, i, None);
        NoMatchBetween(s, m.end);
        NoMatchBeforeFirst(s, m.end);
        var rest := Matches(s, m.end);
        var r := [m] + rest;
        forall j | 0 <= j < |r| - 1
          ensures NoMatchIn(s, r[j].end, r[j + 1].start)
        {
          if j > 0 {
            assert r[j] == rest[j - 1] && r[j + 1] == rest[j];
          }
        }
      } else {
        ScansMiss(s, i, None);
        NoMatchBetween(s, i + 1);
      }
    }
  }

  /** No match starts after the end of the last match the global scan finds. */
  lemma {:induction false} NoMatchAfterLast(s: string, i: nat)
    requires i <= |s|
    ensures var r := Matches(s, i);
      |r| > 0 ==> NoMatchIn(s, r[|r| - 1].end, |s| + 1)
    decreases |s| - i
  {
    if i < |s| {
      var mi := MatchAt(s, i);
      if mi.Some? {
        var m := mi.value;
        ScansHit(s, i, None);
        NoMatchAfterLast(s, m.end);
        NoMatchBeforeFirst(s, m.end);
        var rest := Matches(s, m.end);
        if |rest| > 0 {
          assert ([m] + rest)[|rest|] == rest[|rest| - 1];
        }
      } else {
        ScansMiss(s, i, None);
        NoMatchAfterLast(s, i + 1);
      }
    }
  }

  /** The global scan from `i` finds nothing exactly when no match starts
      at or after `i`. */
  lemma MatchesNoneIff(s: string, i: nat)
    requires i <= |s|
    ensures |Matches(s, i)| == 0 <==> forall k :: i <= k <= |s| ==> MatchAt(s, k).None?
  {
    NoMatchBeforeFirst(s, i);
    NoMatchInMeans(s, i, |s| + 1);
    MatchesAreMatches(s, i);
    var r := Matches(s, i);
    if |r| > 0 {
      assert i <= r[0].start <= |s| && MatchAt(s, r[0].start).Some?;
    }
  }

  /** The left-to-right scan ends with the last match of the global scan,
      or keeps `last` when there is none. */
  lemma {:induction false} LastMatchFromMatches(s: string, i: nat, last: Option<Match>)
    requires i <= |s|
    ensures var r := Matches(s, i);
      LastMatchFrom(s, i, last) == if |r| == 0 then last else Some(r[|r| - 1])
    decreases |s| - i
  {
    if i < |s| {
      var mi := MatchAt(s, i);
      if mi.Some? {
        ScansHit(s, i, last);
        LastMatchFromMatches(s, mi.value.end, mi);
        var rest := Matches(s, mi.value.end);
        if |rest| > 0 {
          assert ([mi.value] + rest)[|rest|] == rest[|rest| - 1];
        }
      } else {
        ScansMiss(s, i, last);
        LastMatchFromMatches(s, i + 1, last);
      }
    }
  }

  /** The block chosen is the capture of the last match `matchAll` finds,
      and there is none exactly when it finds no match. */
  lemma LastFencedBlockIsLastMatch(s: string)
    ensures var r := Matches(s, 0);
      && (LastFencedBlock(s).None? <==> |r| == 0)
      && (|r| > 0 ==> Braced(s, r[|r| - 1]) && LastFencedBlock(s) == Some(s[r[|r| - 1].capStart..r[|r| - 1].capEnd]))
  {
    LastMatchFromMatches(s, 0, None);
    var r := Matches(s, 0);
    if |r| > 0 {
      LastOfMatchesBraced(s);
    }
  }

  /** The last match of the global scan runs from a `{` to a `}` inside `s`. */
  lemma LastOfMatchesBraced(s: string)
    requires |Matches(s, 0)| > 0
    ensures var r := Matches(s, 0); Braced(s, r[|r| - 1])
  {
    MatchesAreMatches(s, 0);
    var r := Matches(s, 0);
    assert MatchAt(s, r[|r| - 1].start) == Some(r[|r| - 1]);
  }

  /** There is a fenced block exactly when the regular expression matches somewhere. */
  lemma LastFencedBlockExists(s: string)
    ensures LastFencedBlock(s).Some? <==> exists i :: 0 <= i <= |s| && MatchAt(s, i).Some?
  {
    MatchesNoneIff(s, 0);
    LastFencedBlockIsLastMatch(s);
  }

  /** The block chosen runs from a `{` to a `}`. */
  lemma LastFencedBlockShape(s: string)
    ensures LastFencedBlock(s).Some? ==>
      var b := LastFencedBlock(s).value; 2 <= |b| && b[0] == '{' && b[|b| - 1] == '}'
  {
    MatchBounds(s, 0, None);
    var r := LastMatchFrom(s, 0, None);
    if r.Some? {
      var m := r.value;
      var b := s[m.capStart..m.capEnd];
      assert LastFencedBlock(s) == Some(b);
      assert b[0] == s[m.capStart] && b[|b| - 1] == s[m.capEnd - 1];
    }
  }

  /** Without any fenced block, the fallback takes the text from the first `{`
      through the last `}`; when the last `}` precedes the first `{`,
      `substring` swaps its bounds and yields the text strictly between them,
      which holds no brace at all; when a brace kind is missing the text is
      returned unchanged. */
  lemma BraceFallbackSpec(s: string)
    requires forall i :: 0 <= i <= |s| ==> MatchAt(s, i).None?
    ensures var first, last := IndexOfChar(s, '{'), LastIndexOfChar(s, '}');
      && (first == -1 || last == -1 ==> CleanJsonSpec(s) == s)
      && (0 <= first <= last ==>
            && CleanJsonSpec(s) == s[first..last + 1]
            && CleanJsonSpec(s)[0] == '{' && CleanJsonSpec(s)[last - first] == '}')
      && (0 <= last < first ==>
            && CleanJsonSpec(s) == s[last + 1..first]
            && '{' !in CleanJsonSpec(s) && '}' !in CleanJsonSpec(s))
  {
    LastFencedBlockExists(s);
    var first, last := IndexOfChar(s, '{'), LastIndexOfChar(s, '}');
    if 0 <= last < first {
      var r := s[last + 1..first];
      forall j | 0 <= j < |r| ensures r[j] != '{' && r[j] != '}' {
        assert r[j] == s[last + 1 + j];
      }
    }
  }

  /** Text without backticks holds no fenced block. */
  lemma NoBacktickNoBlock(s: string)
    requires '`' !in s
    ensures LastFencedBlock(s) == None
  {
    forall i | 0 <= i <= |s| ensures MatchAt(s, i).None? {
      if i < |s| {
        assert s[i] in s;
        assert !FenceAt(s, i) by {
          if i + 3 <= |s| { assert s[i..i + 3][0] == s[i]; }
        }
      }
    }
    LastFencedBlockExists(s);
  }

  /** A JSON object embedded in prose that has no braces and no backticks is
      extracted exactly. */
  lemma EmbeddedObject(pre: string, obj: string, post: string)
    requires '`' !in pre + obj + post
    requires '{' !in pre && '}' !in pre && '{' !in post && '}' !in post
    requires |obj| >= 2 && obj[0] == '{' && obj[|obj| - 1] == '}'
    ensures CleanJsonSpec(pre + obj + post) == obj
  {
    var s := pre + obj + post;
    NoBacktickNoBlock(s);
    var l := |pre| + |obj| - 1;
    forall j | 0 <= j < |pre| ensures s[j] != '{' {
      assert s[j] == pre[j];
    }
    assert s[|pre|] == '{';
    forall j | l < j < |s| ensures s[j] != '}' {
      assert s[j] == post[j - l - 1];
    }
    assert s[l] == '}';
    assert s[|pre|..l + 1] == obj;
  }

  // ---- two fenced blocks: the second wins ----

  /** A fenced block with an optional `json` tag. */
  function Block(tag: string, body: string): string {
    Fence + tag + "{" + body + "}" + Fence
  }

  /** No `}` of the text is followed by optional white space and a fence:
      the lazy capture cannot end inside it. */
  predicate NoEarlyClose(body: string) {
    forall k :: 0 <= k < |body| && body[k] == '}' ==> !FenceAt(body, SkipSpaces(body, k + 1))
  }

  /** The lazy search passes over every `}` that no fence follows. */
  lemma {:induction false} CloseFromSkips(s: string, e: nat, e2: nat)
    requires e <= e2 <= |s|
    requires forall k :: e <= k < e2 && s[k] == '}' ==> !FenceAt(s, SkipSpaces(s, k + 1))
    ensures CloseFrom(s, e) == CloseFrom(s, e2)
    decreases e2 - e
  {
    if e < e2 {
      CloseFromSkips(s, e + 1, e2);
    }
  }

  /** The scan passes over text without backticks. */
  lemma {:induction false} ScanSkips(s: string, i: nat, j: nat, last: Option<Match>)
    requires i <= j <= |s|
    requires forall k :: i <= k < j ==> s[k] != '`'
    ensures LastMatchFrom(s, i, last) == LastMatchFrom(s, j, last)
    decreases j - i
  {
    if i < j {
      assert !FenceAt(s, i) by {
        if i + 3 <= |s| { assert s[i..i + 3][0] == s[i]; }
      }
      ScanSkips(s, i + 1, j, last);
    }
  }

  /** The characters of a block, position by position. */
  lemma BlockChars(tag: string, body: string)
    requires tag == "" || tag == "json"
    ensures var b, o := Block(tag, body), 3 + |tag|;
      && |b| == o + |body| + 5
      && b[0] == '`' && b[1] == '`' && b[2] == '`'
      && (tag == "json" ==> b[3] == 'j' && b[4] == 's' && b[5] == 'o' && b[6] == 'n')
      && b[o] == '{'
      && b[o + 1..o + 1 + |body|] == body
      && b[o + 1 + |body|] == '}'
      && b[o + 2 + |body|] == '`' && b[o + 3 + |body|] == '`' && b[o + 4 + |body|] == '`'
  {
    var b := Block(tag, body);
    var o := 3 + |tag|;
    assert b == (Fence + tag) + ("{" + body + "}" + Fence);
    assert b[o + 1..o + 1 + |body|] == ("{" + body + "}" + Fence)[1..1 + |body|];
  }

  /** The opening part of the regular expression matches a block at index `i`. */
  lemma BlockOpens(s: string, i: nat, tag: string, body: string)
    requires tag == "" || tag == "json"
    requires i + |Block(tag, body)| <= |s| && s[i..i + |Block(tag, body)|] == Block(tag, body)
    ensures OpenAt(s, i) == Some(i + 3 + |tag|)
  {
    var b := Block(tag, body);
    var w := s[i..i + |b|];
    BlockChars(tag, body);
    var open := i + 3 + |tag|;
    assert s[i] == w[0] && s[i + 1] == w[1] && s[i + 2] == w[2];
    assert FenceAt(s, i);
    assert s[open] == w[open - i];
    assert SkipSpaces(s, open) == open;
    if tag == "json" {
      assert s[i + 3] == w[3] && s[i + 4] == w[4] && s[i + 5] == w[5] && s[i + 6] == w[6];
      assert JsonTagAt(s, i + 3);
      assert BraceAfter(s, i + 7) == Some(open);
    } else {
      assert BraceAfter(s, i + 3) == Some(open);
    }
  }

  /** The lazy closing part stops at a `}` that a fence follows directly,
      when no earlier `}` is followed by a fence. */
  lemma CloseAtBrace(s: string, e: nat, close: nat)
    requires e <= close && close + 4 <= |s|
    requires forall k :: e <= k < close && s[k] == '}' ==> !FenceAt(s, SkipSpaces(s, k + 1))
    requires s[close] == '}' && FenceAt(s, close + 1)
    ensures CloseFrom(s, e) == Some(Close(close + 1, close + 4))
  {
    CloseFromSkips(s, e, close);
    assert !IsSpace(s[close + 1]);
    assert SkipSpaces(s, close + 1) == close + 1;
  }

  /** Skipping white space inside `body`, placed in `s` at `p` and followed
      there by a character that is not white space, ends at the same place
      in both. */
  lemma {:induction false} SkipSpacesIn(s: string, p: nat, body: string, j: nat)
    requires p + |body| < |s| && s[p..p + |body|] == body && !IsSpace(s[p + |body|]) && j <= |body|
    ensures SkipSpaces(s, p + j) == p + SkipSpaces(body, j)
    decreases |body| - j
  {
    if j < |body| {
      assert s[p + j] == s[p..p + |body|][j];
      SkipSpacesIn(s, p, body, j + 1);
    }
  }

  /** A fence at a position of `body`, placed in `s` at `p` and followed
      there by `}`, is a fence at the same position of `s`, and conversely. */
  lemma FenceIn(s: string, p: nat, body: string, q: nat)
    requires p + |body| < |s| && s[p..p + |body|] == body && s[p + |body|] == '}' && q <= |body|
    ensures FenceAt(s, p + q) <==> FenceAt(body, q)
  {
    if q + 3 <= |body| {
      assert s[p + q] == body[q] && s[p + q + 1] == body[q + 1] && s[p + q + 2] == body[q + 2] by {
        assert s[p..p + |body|][q] == s[p + q];
        assert s[p..p + |body|][q + 1] == s[p + q + 1];
        assert s[p..p + |body|][q + 2] == s[p + q + 2];
      }
    } else {
      assert !FenceAt(s, p + q) by {
        assert p + q <= p + |body| <= p + q + 2;
      }
    }
  }

  /** A body without an early close, placed in `s` at `p` and followed there
      by `}`, has no `}` that optional white space and a fence follow in `s`. */
  lemma BodyHasNoClose(s: string, p: nat, body: string)
    requires p + |body| < |s| && s[p..p + |body|] == body && s[p + |body|] == '}'
    requires NoEarlyClose(body)
    ensures forall k :: p <= k < p + |body| && s[k] == '}' ==> !FenceAt(s, SkipSpaces(s, k + 1))
  {
    forall k | p <= k < p + |body| && s[k] == '}'
      ensures !FenceAt(s, SkipSpaces(s, k + 1))
    {
      var kb := k - p;
      assert body[kb] == s[k];
      SkipSpacesIn(s, p, body, kb + 1);
      FenceIn(s, p, body, SkipSpaces(body, kb + 1));
    }
  }

  /** The lazy closing part of the regular expression stops at the block's `}`. */
  lemma BlockCloses(s: string, i: nat, tag: string, body: string)
    requires tag == "" || tag == "json"
    requires NoEarlyClose(body)
    requires i + |Block(tag, body)| <= |s| && s[i..i + |Block(tag, body)|] == Block(tag, body)
    ensures CloseFrom(s, i + 4 + |tag|) == Some(Close(i + 5 + |tag| + |body|, i + |Block(tag, body)|))
  {
    BlockBody(s, i, tag, body);
    BodyCloses(s, i + 4 + |tag|, body);
  }

  /** The lazy search from the start of a body without an early close,
      followed by `}` and a fence, stops at that `}`. */
  lemma BodyCloses(s: string, p: nat, body: string)
    requires p + |body| + 4 <= |s| && s[p..p + |body|] == body
    requires s[p + |body|] == '}' && FenceAt(s, p + |body| + 1)
    requires NoEarlyClose(body)
    ensures CloseFrom(s, p) == Some(Close(p + |body| + 1, p + |body| + 4))
  {
    BodyHasNoClose(s, p, body);
    CloseAtBrace(s, p, p + |body|);
  }

  /** In a block placed at `i`, the body sits between the opening `{` and a
      `}` that a fence follows. */
  lemma BlockBody(s: string, i: nat, tag: string, body: string)
    requires tag == "" || tag == "json"
    requires i + |Block(tag, body)| <= |s| && s[i..i + |Block(tag, body)|] == Block(tag, body)
    ensures var open, close := i + 3 + |tag|, i + 4 + |tag| + |body|;
      && close + 4 <= |s| && close == i + |Block(tag, body)| - 4
      && s[open + 1..close] == body && s[close] == '}' && FenceAt(s, close + 1)
  {
    var b := Block(tag, body);
    var w := s[i..i + |b|];
    BlockChars(tag, body);
    var open := i + 3 + |tag|;
    var close := open + 1 + |body|;
    assert s[close] == w[close - i];
    assert s[open + 1..close] == body by {
      forall k | 0 <= k < |body| ensures s[open + 1 + k] == body[k] {
        assert s[open + 1 + k] == w[open + 1 + k - i];
        assert b[open + 1 - i..open + 1 - i + |body|][k] == b[open + 1 - i + k];
      }
    }
    assert s[close + 1] == w[close + 1 - i] && s[close + 2] == w[close + 2 - i] && s[close + 3] == w[close + 3 - i];
  }

  /** A match is an opening followed by a closing. */
  lemma MatchOfParts(s: string, i: nat, b: nat, c: Close)
    requires i <= |s| && b < |s|
    requires OpenAt(s, i) == Some(b) && CloseFrom(s, b + 1) == Some(c)
    ensures MatchAt(s, i) == Some(Match(i, b, c.capEnd, c.end))
  {
  }

  /** The regular expression matches a block placed at index `i`. */
  lemma BlockMatches(s: string, i: nat, tag: string, body: string)
    requires tag == "" || tag == "json"
    requires NoEarlyClose(body)
    requires i + |Block(tag, body)| <= |s| && s[i..i + |Block(tag, body)|] == Block(tag, body)
    ensures MatchAt(s, i) == Some(Match(i, i + 3 + |tag|, i + 5 + |tag| + |body|, i + |Block(tag, body)|))
  {
    var open := i + 3 + |tag|;
    var c := Close(i + 5 + |tag| + |body|, i + |Block(tag, body)|);
    BlockOpens(s, i, tag, body);
    BlockCloses(s, i, tag, body);
    MatchOfParts(s, i, open, c);
  }

  /** The captured group of a block at `i` is its braces and body. */
  lemma BlockCapture(s: string, i: nat, tag: string, body: string)
    requires i + |Block(tag, body)| <= |s| && s[i..i + |Block(tag, body)|] == Block(tag, body)
    ensures s[i + 3 + |tag|..i + 5 + |tag| + |body|] == "{" + body + "}"
  {
    var b := Block(tag, body);
    var o := 3 + |tag|;
    var mid := "{" + body + "}";
    assert b == (Fence + tag) + mid + Fence;
    assert |Fence + tag| == o && |mid| == |body| + 2;
    var w := s[i..i + |b|];
    forall k | 0 <= k < |mid| ensures s[i + o + k] == mid[k] {
      assert s[i + o + k] == w[o + k];
      assert b[o + k] == mid[k];
    }
    assert s[i + o..i + o + |mid|] == mid;
  }

  /** The scan steps over a block in one match. */
  lemma BlockStep(s: string, i: nat, tag: string, body: string, last: Option<Match>) returns (m: Match)
    requires tag == "" || tag == "json"
    requires NoEarlyClose(body)
    requires i + |Block(tag, body)| <= |s| && s[i..i + |Block(tag, body)|] == Block(tag, body)
    ensures m.end == i + |Block(tag, body)|
    ensures m.capStart <= m.capEnd <= |s| && s[m.capStart..m.capEnd] == "{" + body + "}"
    ensures LastMatchFrom(s, i, last) == LastMatchFrom(s, m.end, Some(m))
  {
    m := Match(i, i + 3 + |tag|, i + 5 + |tag| + |body|, i + |Block(tag, body)|);
    BlockMatches(s, i, tag, body);
    BlockCapture(s, i, tag, body);
    assert MatchAt(s, i) == Some(m);
    assert i < |s|;
  }

  /** The scan steps over a piece of text without backticks. */
  lemma PlainStep(s: string, i: nat, j: nat, last: Option<Match>)
    requires i <= j <= |s| && '`' !in s[i..j]
    ensures LastMatchFrom(s, i, last) == LastMatchFrom(s, j, last)
  {
    forall k | i <= k < j ensures s[k] != '`' {
      assert s[k] == s[i..j][k - i];
    }
    ScanSkips(s, i, j, last);
  }

  /** Five steps of the scan: prose, a match, prose, a match, prose. */
  lemma ScanChain(s: string, i1: nat, i2: nat, m1: Match, m2: Match)
    requires i1 <= m1.end <= i2 <= m2.end <= |s|
    requires LastMatchFrom(s, 0, None) == LastMatchFrom(s, i1, None)
    requires LastMatchFrom(s, i1, None) == LastMatchFrom(s, m1.end, Some(m1))
    requires LastMatchFrom(s, m1.end, Some(m1)) == LastMatchFrom(s, i2, Some(m1))
    requires LastMatchFrom(s, i2, Some(m1)) == LastMatchFrom(s, m2.end, Some(m2))
    requires LastMatchFrom(s, m2.end, Some(m2)) == LastMatchFrom(s, |s|, Some(m2))
    ensures LastMatchFrom(s, 0, None) == Some(m2)
  {
  }

  /** When the scan ends with match `m`, `cleanJson` returns its capture. */
  lemma CleanOfLastMatch(s: string, m: Match)
    requires LastMatchFrom(s, 0, None) == Some(m) && m.capStart <= m.capEnd <= |s|
    ensures CleanJsonSpec(s) == s[m.capStart..m.capEnd]
  {
    assert LastFencedBlock(s) == Some(s[m.capStart..m.capEnd]);
  }

  /** Given a reasoning block at `i1` and then the answer block at `i2`, with
      no backticks anywhere else, `cleanJson` returns the answer block. */
  lemma LastOfTwoBlocks(s: string, i1: nat, tag1: string, draft: string,
                        i2: nat, tag2: string, answer: string)
    requires tag1 == "" || tag1 == "json"
    requires tag2 == "" || tag2 == "json"
    requires NoEarlyClose(draft) && NoEarlyClose(answer)
    requires i1 + |Block(tag1, draft)| <= i2 && i2 + |Block(tag2, answer)| <= |s|
    requires s[i1..i1 + |Block(tag1, draft)|] == Block(tag1, draft)
    requires s[i2..i2 + |Block(tag2, answer)|] == Block(tag2, answer)
    requires '`' !in s[..i1]
    requires '`' !in s[i1 + |Block(tag1, draft)|..i2]
    requires '`' !in s[i2 + |Block(tag2, answer)|..]
    ensures CleanJsonSpec(s) == "{" + answer + "}"
  {
    assert LastMatchFrom(s, 0, None) == LastMatchFrom(s, i1, None) by {
      assert s[..i1] == s[0..i1];
      PlainStep(s, 0, i1, None);
    }
    var m1 := BlockStep(s, i1, tag1, draft, None);
    assert LastMatchFrom(s, m1.end, Some(m1)) == LastMatchFrom(s, i2, Some(m1)) by {
      PlainStep(s, m1.end, i2, Some(m1));
    }
    var m2 := BlockStep(s, i2, tag2, answer, Some(m1));
    assert LastMatchFrom(s, m2.end, Some(m2)) == LastMatchFrom(s, |s|, Some(m2)) by {
      assert s[m2.end..] == s[m2.end..|s|];
      PlainStep(s, m2.end, |s|, Some(m2));
    }
    ScanChain(s, i1, i2, m1, m2);
    CleanOfLastMatch(s, m2);
  }

  /** A reply that is one fenced block gives back the braces and body,
      whatever `}` the body holds that no fence follows. */
  lemma SingleBlock(s: string, tag: string, body: string)
    requires tag == "" || tag == "json"
    requires NoEarlyClose(body)
    requires s == Block(tag, body)
    ensures CleanJsonSpec(s) == "{" + body + "}"
  {
    assert s[0..|s|] == s;
    var m := BlockStep(s, 0, tag, body, None);
    CleanOfLastMatch(s, m);
  }

  /** A nested object inside a block is returned whole: its inner `}` is
      followed by the outer `}`, not by a fence. */
  lemma NestedObjectBlock(tag: string, inner: string)
    requires tag == "" || tag == "json"
    requires '}' !in inner
    ensures CleanJsonSpec(Block(tag, "{" + inner + "}")) == "{" + ("{" + inner + "}") + "}"
  {
    var body := "{" + inner + "}";
    forall k | 0 < k < |body| - 1
      ensures body[k] != '}'
    {
      assert body[k] == inner[k - 1];
    }
    assert SkipSpaces(body, |body|) == |body|;
    assert NoEarlyClose(body);
    SingleBlock(Block(tag, body), tag, body);
  }
}
