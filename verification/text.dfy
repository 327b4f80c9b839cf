/** The string operations the resolvers rely on: ASCII lower-casing,
    suffix/substring tests, and colon splitting for image URNs. */
module Text {

  function LowerChar(c: char): char {
    if 'A' <= c <= 'Z' then (c as int - 'A' as int + 'a' as int) as char else c
  }

  /** ASCII lower-casing (the subset of `str.lower` the comparisons need). */
  function Lower(s: string): (r: string)
    ensures |r| == |s|
    ensures forall i :: 0 <= i < |s| ==> r[i] == LowerChar(s[i])
  {
    if s == [] then [] else [LowerChar(s[0])] + Lower(s[1..])
  }

  predicate IsPrefix(p: string, s: string) {
    |p| <= |s| && s[..|p|] == p
  }

  predicate EndsWith(s: string, suffix: string) {
    |suffix| <= |s| && s[|s| - |suffix|..] == suffix
  }

  /** Python's `sub in s` on strings. */
  predicate Contains(s: string, sub: string)
    decreases |s|
  {
    IsPrefix(sub, s) || (s != [] && Contains(s[1..], sub))
  }

  function ColonCount(s: string): nat
    decreases |s|
  {
    if s == [] then 0 else (if s[0] == ':' then 1 else 0) + ColonCount(s[1..])
  }

  /** Python's `s.split(':')`: the maximal colon-free pieces between colons. */
  function Split(s: string): (parts: seq<string>)
    decreases |s|
    ensures |parts| == ColonCount(s) + 1
    ensures forall i :: 0 <= i < |parts| ==> ':' !in parts[i]
  {
    if s == [] then [""]
    else
      var rest := Split(s[1..]);
      if s[0] == ':' then [""] + rest
      else [[s[0]] + rest[0]] + rest[1..]
  }

  /** The longest colon-free prefix of `s` and what follows it; what `[^:]*`
      consumes when matched greedily from the start of `s`. */
  function Segment(s: string): (r: (string, string))
    decreases |s|
    ensures r.0 + r.1 == s
    ensures ':' !in r.0
    ensures r.1 == [] || r.1[0] == ':'
  {
    if s == [] || s[0] == ':' then ([], s)
    else
      var t := Segment(s[1..]);
      assert [s[0]] + t.0 + t.1 == [s[0]] + (t.0 + t.1);
      ([s[0]] + t.0, t.1)
  }

  /** Splitting peels off one greedy segment at a time. */
  lemma {:induction false} SplitBySegment(s: string)
    decreases |s|
    ensures Split(s) == [Segment(s).0] + (if Segment(s).1 == [] then [] else Split(Segment(s).1[1..]))
  {
    if s != [] && s[0] != ':' {
      SplitBySegment(s[1..]);
    }
  }

  /** A colon-free word followed by a colon (or nothing) is exactly one segment. */
  lemma {:induction false} SegmentOfWord(word: string, rest: string)
    requires ':' !in word
    requires rest == [] || rest[0] == ':'
    decreases |word|
    ensures Segment(word + rest) == (word, rest)
  {
    if word != [] {
      assert (word + rest)[1..] == word[1..] + rest;
      SegmentOfWord(word[1..], rest);
      assert [word[0]] + word[1..] == word;
    } else {
      assert word + rest == rest;
    }
  }

  /** A string cannot contain a word holding a character it lacks. */
  lemma {:induction false} MissingCharNotContained(s: string, sub: string, c: char)
    requires c in sub && c !in s
    decreases |s|
    ensures !Contains(s, sub)
  {
    if s != [] {
      MissingCharNotContained(s[1..], sub, c);
    }
  }

  /** Lower-casing only introduces a lower-case letter where its upper-case form was. */
  lemma LowerLacks(s: string, c: char)
    requires 'a' <= c <= 'z'
    requires c !in s && (c as int - 'a' as int + 'A' as int) as char !in s
    ensures c !in Lower(s)
  {
    var low := Lower(s);
    forall i | 0 <= i < |s|
      ensures low[i] != c
    {
      assert s[i] != c;
    }
  }

  lemma ColonFreeCount(s: string)
    requires ':' !in s
    ensures ColonCount(s) == 0
  {
  }
}
