/** Python string operations the ORM relies on, over `seq<char>`:
    `sep in s`, `s.split(sep)`, `sep.join(parts)`, `s.replace(pat, rep)`
    and clamped slicing. */
module Text {

  /** `sep in s` for a non-empty separator. */
  predicate Contains(s: string, sep: string)
    requires |sep| > 0
    decreases |s|
  {
    |s| >= |sep| && (s[..|sep|] == sep || Contains(s[1..], sep))
  }

  /** `s.split(sep)`: cut at every leftmost, non-overlapping occurrence. */
  function Split(s: string, sep: string): (parts: seq<string>)
    requires |sep| > 0
    ensures |parts| >= 1
    decreases |s|
  {
    if |s| < |sep| then [s]
    else if s[..|sep|] == sep then [""] + Split(s[|sep|..], sep)
    else
      var rest := Split(s[1..], sep);
      [[s[0]] + rest[0]] + rest[1..]
  }

  /** `sep.join(parts)`. */
  function Join(parts: seq<string>, sep: string): string
  {
    if |parts| == 0 then ""
    else if |parts| == 1 then parts[0]
    else parts[0] + sep + Join(parts[1..], sep)
  }

  /** `s.replace(pat, rep)`: every occurrence, leftmost first. */
  function ReplaceAll(s: string, pat: string, rep: string): string
    requires |pat| > 0
  {
    Join(Split(s, pat), rep)
  }

  /** `s[:-1]`. */
  function DropLast(s: string): (r: string)
    ensures |s| > 0 ==> s == r + [s[|s| - 1]]
    ensures |s| == 0 ==> r == ""
  {
    if |s| == 0 then s else s[..|s| - 1]
  }

  /** `s[lo:hi]` for non-negative bounds, clamped as Python clamps them. */
  function Slice<T>(s: seq<T>, lo: nat, hi: nat): (r: seq<T>)
    ensures lo <= hi <= |s| ==> r == s[lo..hi]
    ensures |r| <= |s|
  {
    var a := if lo < |s| then lo else |s|;
    var b := if hi < |s| then hi else |s|;
    if b < a then [] else s[a..b]
  }

  /** Splitting and joining with the same separator gives the string back. */
  lemma {:induction false} JoinSplit(s: string, sep: string)
    requires |sep| > 0
    ensures Join(Split(s, sep), sep) == s
    decreases |s|
  {
    if |s| < |sep| {
    } else if s[..|sep|] == sep {
      var tail := s[|sep|..];
      JoinSplit(tail, sep);
      var rest := Split(tail, sep);
      if |rest| == 1 {
        assert Join([""] + rest, sep) == "" + sep + rest[0];
      } else {
        assert ([""] + rest)[1..] == rest;
      }
      assert s == sep + tail;
    } else {
      JoinSplit(s[1..], sep);
      var rest := Split(s[1..], sep);
      var parts := [[s[0]] + rest[0]] + rest[1..];
      if |rest| == 1 {
        assert Join(parts, sep) == [s[0]] + rest[0];
      } else {
        assert parts[1..] == rest[1..];
        assert Join(rest, sep) == rest[0] + sep + Join(rest[1..], sep);
      }
      assert s == [s[0]] + s[1..];
    }
  }

  /** `s.split(sep)` has more than one part exactly when `sep in s`. */
  lemma {:induction false} SplitMany(s: string, sep: string)
    requires |sep| > 0
    ensures |Split(s, sep)| > 1 <==> Contains(s, sep)
    decreases |s|
  {
    if |s| >= |sep| && s[..|sep|] != sep {
      SplitMany(s[1..], sep);
    }
  }

  /** Without the separator, `s.split(sep)` is `[s]`. */
  lemma SplitAbsent(s: string, sep: string)
    requires |sep| > 0
    requires !Contains(s, sep)
    ensures Split(s, sep) == [s]
  {
    SplitMany(s, sep);
    JoinSplit(s, sep);
  }

  /** A separator that no earlier position can start splits `x + sep + y`
      right after `x`. */
  lemma {:induction false} SplitAfter(x: string, sep: string, y: string)
    requires |sep| > 0
    requires !Contains(x + sep[..|sep| - 1], sep)
    ensures Split(x + sep + y, sep) == [x] + Split(y, sep)
    decreases |x|
  {
    var s := x + sep + y;
    if |x| == 0 {
      assert s == sep + y;
      assert s[..|sep|] == sep && s[|sep|..] == y;
    } else {
      var t := x + sep[..|sep| - 1];
      assert t[..|sep|] == s[..|sep|];
      assert t[1..] == x[1..] + sep[..|sep| - 1];
      SplitAfter(x[1..], sep, y);
      assert s[1..] == x[1..] + sep + y;
      assert [x[0]] + x[1..] == x;
    }
  }

  /** Replacing the only placeholder of `x + pat + y`. */
  lemma ReplaceOne(x: string, pat: string, y: string, rep: string)
    requires |pat| > 0
    requires !Contains(x + pat[..|pat| - 1], pat)
    requires !Contains(y, pat)
    ensures ReplaceAll(x + pat + y, pat, rep) == x + rep + y
  {
    var s := x + pat + y;
    SplitAfter(x, pat, y);
    SplitAbsent(y, pat);
    var parts := Split(s, pat);
    assert parts == [x, y];
    JoinTwo(x, y, rep);
  }

  lemma JoinTwo(x: string, y: string, sep: string)
    ensures Join([x, y], sep) == x + sep + y
  {
    assert [x, y][1..] == [y];
  }

  /** The first part of a split with several parts cannot end in a way that
      would let the separator start inside it. */
  lemma {:induction false} SplitHead(s: string, sep: string)
    requires |sep| > 0
    requires |Split(s, sep)| > 1
    ensures !Contains(Split(s, sep)[0] + sep[..|sep| - 1], sep)
    decreases |s|
  {
    if s[..|sep|] == sep {
      assert |Split(s, sep)[0] + sep[..|sep| - 1]| < |sep|;
    } else {
      var rest := Split(s[1..], sep);
      SplitHead(s[1..], sep);
      JoinSplit(s[1..], sep);
      var t := [s[0]] + rest[0] + sep[..|sep| - 1];
      assert t == Split(s, sep)[0] + sep[..|sep| - 1];
      assert t[1..] == rest[0] + sep[..|sep| - 1];
      assert s == [s[0]] + rest[0] + sep + Join(rest[1..], sep);
      assert t[..|sep|] == s[..|sep|];
    }
  }

  /** `(x + sep + y).split(sep)` is `[x, y]` when `x` is the head of a split
      and `y` holds no separator. */
  lemma SplitPair(x: string, sep: string, y: string)
    requires |sep| > 0
    requires !Contains(x + sep[..|sep| - 1], sep)
    requires !Contains(y, sep)
    ensures Split(x + sep + y, sep) == [x, y]
  {
    SplitAfter(x, sep, y);
    SplitAbsent(y, sep);
  }
}
