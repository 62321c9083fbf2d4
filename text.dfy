/** String helpers with Python's semantics: `str.strip`, `str.lower` (ASCII),
    `str.endswith`, `path.split("/")[-1]`, `" ".join` and `str.split(" ")`. */
module Text {

  /** Python's `str.isspace` for one character. */
  predicate IsSpace(c: char)
  {
    var n := c as int;
    (9 <= n <= 13) || (28 <= n <= 32) || n == 0x85 || n == 0xA0 || n == 0x1680
    || (0x2000 <= n <= 0x200A) || n == 0x2028 || n == 0x2029 || n == 0x202F
    || n == 0x205F || n == 0x3000
  }

  predicate AllSpace(s: string)
  {
    forall i :: 0 <= i < |s| ==> IsSpace(s[i])
  }

  /** Where `s.lstrip()` would start looking from `i`: the first position at
      or after `i` that is not whitespace, or `|s|`. */
  function SkipSpace(s: string, i: nat): (j: nat)
    requires i <= |s|
    ensures i <= j <= |s|
    ensures forall k :: i <= k < j ==> IsSpace(s[k])
    ensures j < |s| ==> !IsSpace(s[j])
    decreases |s| - i
  {
    if i < |s| && IsSpace(s[i]) then SkipSpace(s, i + 1) else i
  }

  /** Where `s[lo..j].rstrip()` ends: `j` moved back over trailing whitespace,
      never below `lo`. */
  function BackSpace(s: string, lo: nat, j: nat): (e: nat)
    requires lo <= j <= |s|
    ensures lo <= e <= j
    ensures forall k :: e <= k < j ==> IsSpace(s[k])
    ensures e > lo ==> !IsSpace(s[e - 1])
  {
    if j > lo && IsSpace(s[j - 1]) then BackSpace(s, lo, j - 1) else j
  }

  /** Where the stripped text starts in `s`. */
  function CutFront(s: string): (i: nat)
    ensures i <= |s|
  {
    SkipSpace(s, 0)
  }

  /** Where the stripped text ends in `s`. */
  function CutBack(s: string): (j: nat)
    ensures CutFront(s) <= j <= |s|
  {
    BackSpace(s, CutFront(s), |s|)
  }

  /** `s.strip()`: the slice of `s` between the two cut points; everything cut
      at either end is whitespace, and the result neither starts nor ends with
      whitespace. */
  function Strip(s: string): (r: string)
    ensures r == s[CutFront(s)..CutBack(s)]
    ensures forall k :: 0 <= k < CutFront(s) ==> IsSpace(s[k])
    ensures forall k :: CutBack(s) <= k < |s| ==> IsSpace(s[k])
    ensures r == [] || (!IsSpace(r[0]) && !IsSpace(r[|r| - 1]))
  {
    s[CutFront(s)..CutBack(s)]
  }

  /** A string strips to "" exactly when it is all whitespace. */
  lemma StripEmptyIff(s: string)
    ensures Strip(s) == [] <==> AllSpace(s)
  {
    if Strip(s) != [] {
      assert s[CutFront(s)] == Strip(s)[0];
    }
  }

  function LowerChar(c: char): char
  {
    if 'A' <= c <= 'Z' then (c as int + 32) as char else c
  }

  /** `s.lower()`, for ASCII letters. */
  function Lower(s: string): string
  {
    seq(|s|, i requires 0 <= i < |s| => LowerChar(s[i]))
  }

  predicate EndsWith(s: string, suffix: string)
  {
    |suffix| <= |s| && s[|s| - |suffix|..] == suffix
  }

  /** `path.split("/")[-1]`: the text after the last '/' (all of it when there is none). */
  function LastSegment(path: string): (r: string)
    ensures '/' !in r
    ensures |r| <= |path| && r == path[|path| - |r|..]
    ensures |r| < |path| ==> path[|path| - |r| - 1] == '/'
  {
    if path == [] || path[|path| - 1] == '/' then []
    else LastSegment(path[..|path| - 1]) + [path[|path| - 1]]
  }

  /** The last segment of `a/b` is `b` when `b` holds no '/'. */
  lemma LastSegmentOfChild(a: string, b: string)
    requires '/' !in b
    ensures LastSegment(a + "/" + b) == b
  {
    var p := a + "/" + b;
    var r := LastSegment(p);
    assert p[|p| - |b|..] == b;
    assert p[|p| - |b| - 1] == '/';
  }

  /** `" ".join(parts)`. */
  function Join(parts: seq<string>): string
  {
    if |parts| == 0 then ""
    else if |parts| == 1 then parts[0]
    else parts[0] + " " + Join(parts[1..])
  }

  /** `s.split(" ")`: never empty; no piece holds a space. */
  function Split(s: string): (r: seq<string>)
    ensures |r| >= 1
    ensures forall k :: 0 <= k < |r| ==> ' ' !in r[k]
  {
    if s == [] then [""]
    else
      var t := Split(s[1..]);
      if s[0] == ' ' then [""] + t else [[s[0]] + t[0]] + t[1..]
  }

  /** Joining the pieces of a split gives the string back. */
  lemma {:induction false} JoinSplit(s: string)
    ensures Join(Split(s)) == s
  {
    if s != [] {
      var t := Split(s[1..]);
      JoinSplit(s[1..]);
      if s[0] == ' ' {
        assert Split(s) == [""] + t;
        assert Join([""] + t) == "" + " " + Join(t) by {
          assert ([""] + t)[1..] == t;
        }
        assert s == [' '] + s[1..];
      } else {
        var u := [[s[0]] + t[0]] + t[1..];
        assert Split(s) == u;
        if |t| == 1 {
          assert Join(t) == t[0];
        } else {
          assert Join(t) == t[0] + " " + Join(t[1..]);
          assert u[1..] == t[1..];
        }
        assert s == [s[0]] + s[1..];
      }
    }
  }

  /** Splitting a space-free word followed by more text. */
  lemma {:induction false} SplitWord(w: string, rest: string)
    requires ' ' !in w
    ensures Split(w + rest) == [w + Split(rest)[0]] + Split(rest)[1..]
  {
    if w != [] {
      SplitWord(w[1..], rest);
      assert (w + rest)[1..] == w[1..] + rest;
      assert (w + rest)[0] == w[0];
      assert [w[0]] + (w[1..] + Split(rest)[0]) == w + Split(rest)[0];
    } else {
      var t := Split(rest);
      assert w + rest == rest;
      assert w + t[0] == t[0];
      assert [t[0]] + t[1..] == t;
    }
  }

  /** Splitting a join of space-free pieces gives the pieces back. */
  lemma {:induction false} SplitJoin(parts: seq<string>)
    requires |parts| >= 1
    requires forall k :: 0 <= k < |parts| ==> ' ' !in parts[k]
    ensures Split(Join(parts)) == parts
  {
    if |parts| == 1 {
      SplitWord(parts[0], "");
      assert parts[0] + "" == parts[0];
    } else {
      var j := Join(parts[1..]);
      SplitJoin(parts[1..]);
      assert Join(parts) == parts[0] + (" " + j);
      SplitWord(parts[0], " " + j);
      assert Split(" " + j) == [""] + Split(j) by {
        assert (" " + j)[1..] == j;
      }
      assert parts[0] + "" == parts[0];
      assert parts == [parts[0]] + parts[1..];
    }
  }
}
