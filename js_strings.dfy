/** The two JavaScript string operations the extractor relies on:
    `String.prototype.indexOf` and `String.prototype.substr` with one argument. */
module JsStrings {

  /** `pattern` occurs in `s` starting at index `i`. */
  ghost predicate OccursAt(s: string, pattern: string, i: int) {
    0 <= i && i + |pattern| <= |s| && s[i..i + |pattern|] == pattern
  }

  /** `i` is the leftmost index at which `pattern` occurs in `s`. */
  ghost predicate IsFirstOccurrence(s: string, pattern: string, i: int) {
    OccursAt(s, pattern, i) && forall j :: 0 <= j < i ==> !OccursAt(s, pattern, j)
  }

  /** Occurrences in `s[1..]` are occurrences in `s` shifted by one. */
  lemma ShiftOccurrences(s: string, pattern: string)
    requires |s| >= 1
    ensures forall j :: 0 <= j ==> (OccursAt(s[1..], pattern, j) <==> OccursAt(s, pattern, j + 1))
    ensures forall j :: 1 <= j ==> (OccursAt(s, pattern, j) <==> OccursAt(s[1..], pattern, j - 1))
  {
  }

  /** `s.indexOf(pattern)`: the first index at which `pattern` occurs,
      or -1 when it does not occur at all. */
  function IndexOf(s: string, pattern: string): (r: int)
    ensures r == -1 || IsFirstOccurrence(s, pattern, r)
    ensures r == -1 <==> forall j :: !OccursAt(s, pattern, j)
    decreases |s|
  {
    if |pattern| > |s| then -1
    else if s[..|pattern|] == pattern then 0
    else
      var r := IndexOf(s[1..], pattern);
      ShiftOccurrences(s, pattern);
      if r < 0 then -1 else r + 1
  }

  /** `s.substr(start)` for a start within the string: the rest of `s` from `start`. */
  function Substr(s: string, start: nat): (r: string)
    ensures start <= |s| ==> s[..start] + r == s
    ensures start > |s| ==> r == []
  {
    if start <= |s| then s[start..] else []
  }
}
