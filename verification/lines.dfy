/** Text pipeline shared by both servers: `split('\n')`, `replace(/\r/g, '')`,
    `trim()` and `filter(line => line.length > 0)` as pure functions, with the
    lemmas that say what they compute. */
module Lines {

  // ---------------------------------------------------------------- split / join

  /** `s.split('\n')`: the pieces between newlines, at least one piece. */
  function SplitLines(s: string): (parts: seq<string>)
    ensures |parts| >= 1
    decreases |s|
  {
    if |s| == 0 then [""]
    else if s[0] == '\n' then [""] + SplitLines(s[1..])
    else
      var rest := SplitLines(s[1..]);
      [[s[0]] + rest[0]] + rest[1..]
  }

  /** `parts.join('\n')`, the inverse of SplitLines. */
  function JoinLines(parts: seq<string>): string
    requires |parts| >= 1
  {
    if |parts| == 1 then parts[0] else parts[0] + "\n" + JoinLines(parts[1..])
  }

  /** No piece of a split holds a newline. */
  lemma {:induction false} SplitPiecesHaveNoNewline(s: string)
    ensures forall k :: 0 <= k < |SplitLines(s)| ==> '\n' !in SplitLines(s)[k]
    decreases |s|
  {
    if |s| > 0 {
      SplitPiecesHaveNoNewline(s[1..]);
      if s[0] != '\n' {
        var rest := SplitLines(s[1..]);
        var parts := SplitLines(s);
        forall k | 0 <= k < |parts| ensures '\n' !in parts[k] {
          if k == 0 {
            assert parts[0] == [s[0]] + rest[0];
          } else {
            assert parts[k] == rest[k];
          }
        }
      }
    }
  }

  /** Splitting loses nothing: joining the pieces back gives the text, and no
      piece holds a newline. */
  lemma {:induction false} SplitJoin(s: string)
    ensures JoinLines(SplitLines(s)) == s
    ensures forall k :: 0 <= k < |SplitLines(s)| ==> '\n' !in SplitLines(s)[k]
    decreases |s|
  {
    SplitPiecesHaveNoNewline(s);
    if |s| > 0 {
      SplitJoin(s[1..]);
      var rest := SplitLines(s[1..]);
      if s[0] == '\n' {
        assert SplitLines(s) == [""] + rest;
        assert s == "\n" + s[1..];
      } else if |rest| == 1 {
        assert SplitLines(s) == [[s[0]] + rest[0]];
        assert s == [s[0]] + s[1..];
      } else {
        var parts := SplitLines(s);
        assert parts == [[s[0]] + rest[0]] + rest[1..];
        assert parts[1..] == rest[1..];
        assert JoinLines(rest) == rest[0] + "\n" + JoinLines(rest[1..]);
        assert JoinLines(parts) == ([s[0]] + rest[0]) + "\n" + JoinLines(rest[1..]);
        assert s == [s[0]] + s[1..];
      }
    }
  }

  // ---------------------------------------------------------------- whitespace

  /** The characters that `String.prototype.trim` removes: the ECMAScript
      WhiteSpace and LineTerminator code points. */
  predicate IsJsSpace(c: char) {
    c == '\t' || c == '\n' || c == '\U{000B}' || c == '\U{000C}' || c == '\r' || c == ' '
    || c == '\U{00A0}' || c == '\U{1680}' || ('\U{2000}' <= c <= '\U{200A}')
    || c == '\U{2028}' || c == '\U{2029}' || c == '\U{202F}' || c == '\U{205F}'
    || c == '\U{3000}' || c == '\U{FEFF}'
  }

  predicate AllSpace(s: string) {
    forall k :: 0 <= k < |s| ==> IsJsSpace(s[k])
  }

  /** Neither end of `s` is whitespace. */
  predicate IsTrimmed(s: string) {
    |s| > 0 ==> !IsJsSpace(s[0]) && !IsJsSpace(s[|s| - 1])
  }

  /** Number of whitespace characters at the front of `s`. */
  function LeadingSpaces(s: string): (n: nat)
    ensures n <= |s|
  {
    if |s| > 0 && IsJsSpace(s[0]) then 1 + LeadingSpaces(s[1..]) else 0
  }

  /** Number of whitespace characters at the back of `s`. */
  function TrailingSpaces(s: string): (n: nat)
    ensures n <= |s|
  {
    if |s| > 0 && IsJsSpace(s[|s| - 1]) then 1 + TrailingSpaces(s[..|s| - 1]) else 0
  }

  /** `s.trim()`. */
  function Trim(s: string): string {
    var a := s[LeadingSpaces(s)..];
    a[..|a| - TrailingSpaces(a)]
  }

  lemma {:induction false} LeadingSpacesExact(s: string)
    ensures AllSpace(s[..LeadingSpaces(s)])
    ensures LeadingSpaces(s) < |s| ==> !IsJsSpace(s[LeadingSpaces(s)])
  {
    if |s| > 0 && IsJsSpace(s[0]) {
      LeadingSpacesExact(s[1..]);
      assert s[..LeadingSpaces(s)] == [s[0]] + s[1..][..LeadingSpaces(s[1..])];
    }
  }

  lemma {:induction false} TrailingSpacesExact(s: string)
    ensures AllSpace(s[|s| - TrailingSpaces(s)..])
    ensures TrailingSpaces(s) < |s| ==> !IsJsSpace(s[|s| - TrailingSpaces(s) - 1])
  {
    if |s| > 0 && IsJsSpace(s[|s| - 1]) {
      var t := s[..|s| - 1];
      TrailingSpacesExact(t);
      assert s[|s| - TrailingSpaces(s)..] == t[|t| - TrailingSpaces(t)..] + [s[|s| - 1]];
    }
  }

  /** `trim()` removes only whitespace, from the two ends only, and leaves
      neither end on whitespace: the result is the slice `s[i..j]` with all of
      `s[..i]` and `s[j..]` whitespace. */
  lemma {:induction false} TrimExact(s: string)
    ensures IsTrimmed(Trim(s))
    ensures var i := LeadingSpaces(s);
            var j := |s| - TrailingSpaces(s[i..]);
            i <= j <= |s| && Trim(s) == s[i..j] && AllSpace(s[..i]) && AllSpace(s[j..])
  {
    var i := LeadingSpaces(s);
    var a := s[i..];
    var n := TrailingSpaces(a);
    var j := |s| - n;
    TrimSlices(s, i, a, n);
    var t := Trim(s);
    if |t| > 0 {
      LeadingSpacesExact(s);
      TrailingSpacesExact(a);
      assert t[0] == s[i];
      assert t[|t| - 1] == a[|a| - n - 1];
    }
  }

  /** The slices behind TrimExact: the removed front and back are whitespace
      and what is left is `s[i..|s| - n]`. */
  lemma TrimSlices(s: string, i: nat, a: string, n: nat)
    requires i == LeadingSpaces(s) && a == s[i..] && n == TrailingSpaces(a)
    ensures Trim(s) == s[i..|s| - n]
    ensures AllSpace(s[..i]) && AllSpace(s[|s| - n..])
  {
    LeadingSpacesExact(s);
    TrailingSpacesExact(a);
    assert a[|a| - n..] == s[|s| - n..];
  }

  /** `s.replace(/\r/g, '')`: no carriage return is left, and text that
      holds none comes back unchanged. */
  function RemoveCR(s: string): (r: string)
    ensures |r| <= |s|
    ensures forall k :: 0 <= k < |r| ==> r[k] != '\r'
    ensures '\r' !in s ==> r == s
  {
    if |s| == 0 then ""
    else if s[0] == '\r' then RemoveCR(s[1..])
    else [s[0]] + RemoveCR(s[1..])
  }

  /** RemoveCR works piece by piece: together with `RemoveCR("\r") == ""`
      and the unchanged case above, every other character is kept, in
      order. */
  lemma {:induction false} RemoveCRAppend(a: string, b: string)
    ensures RemoveCR(a + b) == RemoveCR(a) + RemoveCR(b)
    ensures RemoveCR("\r") == ""
    decreases |a|
  {
    if |a| > 0 {
      RemoveCRAppend(a[1..], b);
      assert (a + b)[1..] == a[1..] + b;
    } else {
      assert a + b == b;
    }
  }

  // ---------------------------------------------------------------- filter

  /** `xs.filter(x => x.length > 0)`. */
  function KeepNonEmpty(xs: seq<string>): seq<string> {
    if |xs| == 0 then []
    else (if xs[0] != "" then [xs[0]] else []) + KeepNonEmpty(xs[1..])
  }

  /** The positions in `xs` of its non-empty entries, in increasing order. */
  function NonEmptyPositions(xs: seq<string>): seq<nat> {
    if |xs| == 0 then []
    else
      var tail := NonEmptyPositions(xs[1..]);
      (if xs[0] != "" then [0] else []) + seq(|tail|, k requires 0 <= k < |tail| => tail[k] + 1)
  }

  lemma {:induction false} KeepNonEmptyLength(xs: seq<string>)
    ensures |NonEmptyPositions(xs)| == |KeepNonEmpty(xs)|
  {
    if |xs| > 0 { KeepNonEmptyLength(xs[1..]); }
  }

  /** The k-th kept entry is the entry of `xs` at the k-th recorded position. */
  lemma {:induction false} KeepNonEmptyAt(xs: seq<string>, k: nat)
    requires k < |KeepNonEmpty(xs)|
    ensures |NonEmptyPositions(xs)| == |KeepNonEmpty(xs)|
    ensures NonEmptyPositions(xs)[k] < |xs|
    ensures KeepNonEmpty(xs)[k] == xs[NonEmptyPositions(xs)[k]] != ""
  {
    KeepNonEmptyLength(xs);
    KeepNonEmptyLength(xs[1..]);
    if xs[0] != "" && k == 0 {
    } else {
      var k' := if xs[0] != "" then k - 1 else k;
      KeepNonEmptyAt(xs[1..], k');
      assert KeepNonEmpty(xs)[k] == KeepNonEmpty(xs[1..])[k'];
      assert NonEmptyPositions(xs)[k] == NonEmptyPositions(xs[1..])[k'] + 1;
    }
  }

  /** The recorded positions are strictly increasing and lie inside `xs`. */
  lemma {:induction false} NonEmptyPositionsIncreasing(xs: seq<string>)
    ensures forall k :: 0 <= k < |NonEmptyPositions(xs)| ==> NonEmptyPositions(xs)[k] < |xs|
    ensures forall k, l :: 0 <= k < l < |NonEmptyPositions(xs)| ==>
              NonEmptyPositions(xs)[k] < NonEmptyPositions(xs)[l]
  {
    if |xs| > 0 {
      NonEmptyPositionsIncreasing(xs[1..]);
    }
  }

  /** Every non-empty entry of `xs` has its position recorded. */
  lemma {:induction false} NonEmptyPositionsComplete(xs: seq<string>, j: nat)
    requires j < |xs| && xs[j] != ""
    ensures j in NonEmptyPositions(xs)
  {
    var p := NonEmptyPositions(xs);
    if j > 0 {
      var tail := NonEmptyPositions(xs[1..]);
      NonEmptyPositionsComplete(xs[1..], j - 1);
      var k :| 0 <= k < |tail| && tail[k] == j - 1;
      var off := if xs[0] != "" then 1 else 0;
      assert p[off + k] == j;
    }
  }

  /** `KeepNonEmpty(xs)` keeps exactly the non-empty entries of `xs`, in their
      original order: it is `xs` read at the strictly increasing positions
      `NonEmptyPositions(xs)`, and every non-empty entry's position is one of
      them. */
  lemma KeepNonEmptyExact(xs: seq<string>)
    ensures var r, p := KeepNonEmpty(xs), NonEmptyPositions(xs);
            |p| == |r|
            && (forall k :: 0 <= k < |p| ==> p[k] < |xs| && r[k] == xs[p[k]] && r[k] != "")
            && (forall k, l :: 0 <= k < l < |p| ==> p[k] < p[l])
            && (forall j :: 0 <= j < |xs| && xs[j] != "" ==> j in p)
  {
    KeepNonEmptyLength(xs);
    NonEmptyPositionsIncreasing(xs);
    forall k | 0 <= k < |KeepNonEmpty(xs)| ensures KeepNonEmpty(xs)[k] == xs[NonEmptyPositions(xs)[k]] != "" {
      KeepNonEmptyAt(xs, k);
    }
    forall j | 0 <= j < |xs| && xs[j] != "" ensures j in NonEmptyPositions(xs) {
      NonEmptyPositionsComplete(xs, j);
    }
  }
}
