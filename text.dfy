/** The JavaScript string operations the core relies on, over `seq<char>`. */
module Text {
  import opened Common

  /** The characters matched by `\s` in an ECMAScript regular expression:
      the WhiteSpace and LineTerminator code points of ECMA-262. */
  predicate IsSpace(c: char) {
    || c == '\t' || c == '\n' || c == '\U{000B}' || c == '\U{000C}' || c == '\r' || c == ' '
    || c == '\U{00A0}' || c == '\U{1680}' || ('\U{2000}' <= c <= '\U{200A}')
    || c == '\U{2028}' || c == '\U{2029}' || c == '\U{202F}' || c == '\U{205F}'
    || c == '\U{3000}' || c == '\U{FEFF}'
  }

  /** `s.startsWith(prefix)` */
  predicate StartsWith(s: string, prefix: string) {
    |prefix| <= |s| && s[..|prefix|] == prefix
  }

  /** `t` occurs in `s` starting at index `i`. */
  predicate OccursAt(s: string, i: nat, t: string) {
    i + |t| <= |s| && s[i..i + |t|] == t
  }

  /** `parts.join(sep)` */
  function Join(parts: seq<string>, sep: string): string {
    if |parts| == 0 then ""
    else if |parts| == 1 then parts[0]
    else parts[0] + sep + Join(parts[1..], sep)
  }

  /** The first index at or after `from` where `sep` occurs in `s`. */
  function FindFrom(s: string, sep: string, from: nat): (r: Option<nat>)
    requires |sep| > 0
    ensures r.Some? ==> from <= r.value && OccursAt(s, r.value, sep)
    ensures r.Some? ==> forall k :: from <= k < r.value ==> !OccursAt(s, k, sep)
    ensures r.None? ==> forall k :: from <= k ==> !OccursAt(s, k, sep)
    decreases |s| - from
  {
    if from + |sep| > |s| then None
    else if OccursAt(s, from, sep) then Some(from)
    else FindFrom(s, sep, from + 1)
  }

  /** `s.split(sep)` for a non-empty separator string: cut at every leftmost,
      non-overlapping occurrence of `sep`. */
  function Split(s: string, sep: string): (r: seq<string>)
    requires |sep| > 0
    ensures |r| > 0
    decreases |s|
  {
    match FindFrom(s, sep, 0)
    case None => [s]
    case Some(k) => [s[..k]] + Split(s[k + |sep|..], sep)
  }

  /** When no part contains the separator's first character, splitting the
      joined string on the separator gives the parts back. */
  lemma {:induction false} SplitJoin(parts: seq<string>, sep: string)
    requires |sep| > 0 && |parts| > 0
    requires forall i :: 0 <= i < |parts| ==> sep[0] !in parts[i]
    ensures Split(Join(parts, sep), sep) == parts
  {
    var p := parts[0];
    if |parts| == 1 {
      NoOccurrenceWithoutFirstChar(p, sep);
    } else {
      var rest := Join(parts[1..], sep);
      var s := p + sep + rest;
      assert OccursAt(s, |p|, sep) by {
        assert s[|p|..|p| + |sep|] == sep;
      }
      forall k | 0 <= k < |p| ensures !OccursAt(s, k, sep) {
        assert s[k] == p[k] && p[k] in p;
        NotOccursAt(s, k, sep);
      }
      assert FindFrom(s, sep, 0) == Some(|p|);
      assert s[..|p|] == p;
      assert s[|p| + |sep|..] == rest;
      SplitJoin(parts[1..], sep);
    }
  }

  /** A string without the separator's first character has no occurrence of it. */
  lemma NoOccurrenceWithoutFirstChar(s: string, sep: string)
    requires |sep| > 0 && sep[0] !in s
    ensures FindFrom(s, sep, 0) == None
  {
    forall k | 0 <= k ensures !OccursAt(s, k, sep) {
      if k < |s| {
        assert s[k] in s;
        NotOccursAt(s, k, sep);
      }
    }
  }

  /** An occurrence starts with the separator's first character. */
  lemma NotOccursAt(s: string, k: nat, sep: string)
    requires |sep| > 0 && k < |s| && s[k] != sep[0]
    ensures !OccursAt(s, k, sep)
  {
    if k + |sep| <= |s| {
      assert s[k..k + |sep|][0] == s[k];
    }
  }
}
