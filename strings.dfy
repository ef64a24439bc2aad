/** Plain string helpers: searching for a character, joining with a separator, splitting. */
module Strings {

  /** Position of the first `c` in `s`, or `|s|` when `c` does not occur. */
  function IndexOf(s: string, c: char): (k: nat)
    ensures k <= |s|
    ensures k < |s| ==> s[k] == c
    ensures forall i :: 0 <= i < k ==> s[i] != c
  {
    if s == [] then 0
    else if s[0] == c then 0
    else 1 + IndexOf(s[1..], c)
  }

  /** `lines` separated by `sep` (Rust's `join`): no separator before the first or after the last. */
  function Join(lines: seq<string>, sep: string): string {
    if |lines| == 0 then ""
    else if |lines| == 1 then lines[0]
    else lines[0] + sep + Join(lines[1..], sep)
  }

  /** The pieces of `s` between occurrences of `c`; always at least one piece. */
  function Split(s: string, c: char): (r: seq<string>)
    ensures |r| > 0
    decreases |s|
  {
    var k := IndexOf(s, c);
    if k == |s| then [s] else [s[..k]] + Split(s[k + 1..], c)
  }

  predicate Free(s: string, c: char) {
    forall i :: 0 <= i < |s| ==> s[i] != c
  }

  /** A string without `c` is not cut by a search for `c`. */
  lemma IndexOfFree(s: string, c: char)
    requires Free(s, c)
    ensures IndexOf(s, c) == |s|
  {
    if s != [] {
      IndexOfFree(s[1..], c);
    }
  }

  /** The first `c` in `u + [c] + v` is the one right after `u` when `u` has none. */
  lemma IndexOfAfter(u: string, c: char, v: string)
    requires Free(u, c)
    ensures IndexOf(u + [c] + v, c) == |u|
  {
    var s := u + [c] + v;
    assert s[|u|] == c;
  }

  /**
    * Joining lines that contain no `c` with `c` and splitting at `c` gives the lines
    * back: a join of one or more lines loses nothing.
    */
  lemma {:induction false} SplitJoin(lines: seq<string>, c: char)
    requires |lines| > 0
    requires forall i :: 0 <= i < |lines| ==> Free(lines[i], c)
    ensures Split(Join(lines, [c]), c) == lines
    decreases |lines|
  {
    if |lines| == 1 {
      IndexOfFree(lines[0], c);
    } else {
      var rest := Join(lines[1..], [c]);
      assert Join(lines, [c]) == lines[0] + [c] + rest;
      SplitAfter(lines[0], c, rest);
      SplitJoin(lines[1..], c);
      assert [lines[0]] + lines[1..] == lines;
    }
  }

  /** Splitting at the first `c` cuts off the piece before it. */
  lemma SplitAfter(u: string, c: char, rest: string)
    requires Free(u, c)
    ensures Split(u + [c] + rest, c) == [u] + Split(rest, c)
  {
    var s := u + [c] + rest;
    IndexOfAfter(u, c, rest);
    assert s[..|u|] == u;
    assert s[|u| + 1..] == rest;
  }
}
