/** The optional value of Rust's `Option`. */
module Opt {
  datatype Option<T> = None | Some(value: T)
}

/** Character-sequence helpers with the semantics of the Rust `str` methods
    that the tool calls: `trim`, `find`, `split`, `split_terminator` and
    `replace`. */
module Strings {
  import opened Opt

  /** Rust's `char::is_whitespace`: the Unicode White_Space property. */
  predicate IsWhitespace(c: char) {
    ('\t' <= c <= '\r') || c == ' ' || c == '\U{0085}' || c == '\U{00A0}' || c == '\U{1680}'
    || ('\U{2000}' <= c <= '\U{200A}') || c == '\U{2028}' || c == '\U{2029}'
    || c == '\U{202F}' || c == '\U{205F}' || c == '\U{3000}'
  }

  /** The scan of `str::trim_start` from index `i`: the first index at or
      after `i` that holds no whitespace, or the end. */
  function SkipWhitespace(s: string, i: nat): (r: nat)
    requires i <= |s|
    ensures i <= r <= |s| && (r < |s| ==> !IsWhitespace(s[r]))
    ensures forall k :: i <= k < r ==> IsWhitespace(s[k])
    decreases |s| - i
  {
    if i == |s| || !IsWhitespace(s[i]) then i else SkipWhitespace(s, i + 1)
  }

  /** The scan of `str::trim_end` back from index `j`, not below `lo`: the
      end of the last character before `j` that is no whitespace, or `lo`. */
  function SkipWhitespaceBack(s: string, lo: nat, j: nat): (r: nat)
    requires lo <= j <= |s|
    ensures lo <= r <= j && (r > lo ==> !IsWhitespace(s[r - 1]))
    ensures forall k :: r <= k < j ==> IsWhitespace(s[k])
    decreases j
  {
    if j == lo || !IsWhitespace(s[j - 1]) then j else SkipWhitespaceBack(s, lo, j - 1)
  }

  /** `str::trim`: the slice of `s` between its leading and its trailing
      whitespace. */
  function Trim(s: string): (r: string)
    ensures |r| <= |s|
    ensures r == [] || (!IsWhitespace(r[0]) && !IsWhitespace(r[|r| - 1]))
  {
    var i := SkipWhitespace(s, 0);
    var j := SkipWhitespaceBack(s, i, |s|);
    assert j > i ==> s[i..j][0] == s[i] && s[i..j][j - i - 1] == s[j - 1];
    s[i..j]
  }

  /** The trimmed text is the slice `s[i..j]` with only whitespace outside
      it and none at either of its ends. */
  lemma TrimMeaning(s: string) returns (i: nat, j: nat)
    ensures i <= j <= |s| && Trim(s) == s[i..j]
    ensures forall k :: 0 <= k < i ==> IsWhitespace(s[k])
    ensures forall k :: j <= k < |s| ==> IsWhitespace(s[k])
  {
    i := SkipWhitespace(s, 0);
    j := SkipWhitespaceBack(s, i, |s|);
  }

  /** `str::find(c)`: the index of the first occurrence of `c`. */
  function FindChar(s: string, c: char): (r: Option<nat>)
    ensures r.None? ==> c !in s
    ensures r.Some? ==> r.value < |s| && s[r.value] == c && c !in s[..r.value]
  {
    if s == [] then None
    else if s[0] == c then Some(0)
    else
      match FindChar(s[1..], c)
      case None => None
      case Some(i) => assert s[1..][..i] == s[1..i + 1]; Some(i + 1)
  }

  /** `parts` joined with the separator `sep` between consecutive parts. */
  function JoinWith(parts: seq<string>, sep: char): string
    requires |parts| > 0
  {
    if |parts| == 1 then parts[0] else JoinWith(parts[..|parts| - 1], sep) + [sep] + parts[|parts| - 1]
  }

  lemma {:induction false} JoinWithCons(p: string, rest: seq<string>, sep: char)
    requires |rest| > 0
    ensures JoinWith([p] + rest, sep) == p + [sep] + JoinWith(rest, sep)
  {
    if |rest| > 1 {
      JoinWithCons(p, rest[..|rest| - 1], sep);
      assert ([p] + rest)[..|rest|] == [p] + rest[..|rest| - 1];
    }
  }

  /** `str::split(sep)` collected: the pieces between the separators, in
      order; joining them back with `sep` gives the original string. */
  function Split(s: string, sep: char): (r: seq<string>)
    ensures |r| > 0
    ensures forall k :: 0 <= k < |r| ==> sep !in r[k]
    ensures JoinWith(r, sep) == s
    decreases |s|
  {
    match FindChar(s, sep)
    case None => [s]
    case Some(i) =>
      var rest := Split(s[i + 1..], sep);
      JoinWithCons(s[..i], rest, sep);
      assert s == s[..i] + [sep] + s[i + 1..];
      [s[..i]] + rest
  }

  /** Every part followed by the separator. */
  function ConcatTerminated(parts: seq<string>, sep: char): string {
    if parts == [] then [] else parts[0] + [sep] + ConcatTerminated(parts[1..], sep)
  }

  lemma {:induction false} ConcatTerminatedJoin(parts: seq<string>, sep: char)
    requires |parts| > 0
    ensures ConcatTerminated(parts, sep) == JoinWith(parts, sep) + [sep]
    decreases |parts|
  {
    if |parts| > 1 {
      ConcatTerminatedJoin(parts[1..], sep);
      JoinWithCons(parts[0], parts[1..], sep);
      assert [parts[0]] + parts[1..] == parts;
    }
  }

  /** `str::split_terminator(sep)` collected: like `Split`, but a separator
      that ends the string terminates the last piece instead of starting an
      empty one. Terminating every piece with `sep` restores the string, or
      the string plus one separator when it did not end with one. */
  function SplitTerminator(s: string, sep: char): (r: seq<string>)
    ensures forall k :: 0 <= k < |r| ==> sep !in r[k]
    ensures ConcatTerminated(r, sep) == if s == [] || s[|s| - 1] == sep then s else s + [sep]
  {
    var parts := Split(s, sep);
    var n := |parts|;
    DropEmptyLast(parts, sep);
    if parts[n - 1] == [] then parts[..n - 1] else parts
  }

  lemma DropEmptyLast(parts: seq<string>, sep: char)
    requires |parts| > 0
    requires forall k :: 0 <= k < |parts| ==> sep !in parts[k]
    ensures parts[|parts| - 1] == [] ==>
      var s := JoinWith(parts, sep);
      ConcatTerminated(parts[..|parts| - 1], sep) == s && (s == [] || s[|s| - 1] == sep)
    ensures parts[|parts| - 1] != [] ==>
      var s := JoinWith(parts, sep);
      ConcatTerminated(parts, sep) == s + [sep] && s != [] && s[|s| - 1] != sep
  {
    var n := |parts|;
    if parts[n - 1] == [] {
      if n > 1 {
        ConcatTerminatedJoin(parts[..n - 1], sep);
      }
    } else {
      ConcatTerminatedJoin(parts, sep);
      JoinWithLast(parts, sep);
    }
  }

  lemma {:induction false} JoinWithLast(parts: seq<string>, sep: char)
    requires |parts| > 0 && parts[|parts| - 1] != []
    ensures JoinWith(parts, sep) != [] && JoinWith(parts, sep)[|JoinWith(parts, sep)| - 1] == parts[|parts| - 1][|parts[|parts| - 1]| - 1]
  {
  }

  /** `str::replace(pat, rep)`: every non-overlapping occurrence of `pat`,
      scanning from the left, replaced by `rep`. */
  function ReplaceAll(s: string, pat: string, rep: string): string
    requires |pat| > 0
    decreases |s|
  {
    if |s| < |pat| then s
    else if s[..|pat|] == pat then rep + ReplaceAll(s[|pat|..], pat, rep)
    else [s[0]] + ReplaceAll(s[1..], pat, rep)
  }

  predicate MatchAt(s: string, pat: string, i: nat) {
    i + |pat| <= |s| && s[i..i + |pat|] == pat
  }

  predicate Contains(s: string, pat: string) {
    exists i: nat | i <= |s| :: MatchAt(s, pat, i)
  }

  /** A string without an occurrence of the pattern is left as it is. */
  lemma {:induction false} ReplaceAllWithoutMatch(s: string, pat: string, rep: string)
    requires |pat| > 0 && !Contains(s, pat)
    ensures ReplaceAll(s, pat, rep) == s
    decreases |s|
  {
    if |s| >= |pat| {
      assert !MatchAt(s, pat, 0);
      assert !Contains(s[1..], pat) by {
        forall i: nat | MatchAt(s[1..], pat, i) ensures false {
          assert s[1..][i..i + |pat|] == s[i + 1..i + 1 + |pat|];
          assert MatchAt(s, pat, i + 1);
        }
      }
      ReplaceAllWithoutMatch(s[1..], pat, rep);
    }
  }

  /** How Rust's `{:?}` shows a string or a path: between double quotes
      (escaping of special characters is not modelled). */
  function Quoted(s: string): string {
    "\"" + s + "\""
  }
}
