/** The offset and limit arithmetic of `QuerySet.__getitem__` for a slice
    `qs[start:stop]`, computed against the receiver's `limit_dict`. */
module Slicing {
  import opened Wrappers
  import opened Compiler

  /** Python truth of an optional number: present and not zero. */
  predicate Set(x: Option<int>)
  {
    x.Some? && x.value != 0
  }

  function Min(a: int, b: int): int
  {
    if a <= b then a else b
  }

  /** The new `limit_dict` of `qs[start:stop]`. The offset moves by `start`
      (back to the old offset when it falls past the old window); with a
      `stop`, the limit is `stop - start` cut to the old window, and it is
      only written when it is not zero, so a zero keeps the old limit. */
  function SliceLimits(l: Limits, start: Option<int>, stop: Option<int>): (r: Limits)
    ensures r.offset.Some?
    ensures stop.None? ==> r.limit == l.limit
  {
    var s := if start.Some? then start.value else 0;
    var selfOffset := if l.offset.Some? then l.offset.value else 0;
    var offset0 := selfOffset + s;
    if stop.None? then Limits(l.limit, Some(offset0))
    else
      var limit0 := stop.value - s;
      var (offset, limit) :=
        if Set(l.limit) && offset0 > selfOffset + l.limit.value then (selfOffset, 0)
        else if Set(l.limit) && offset0 + limit0 > selfOffset + l.limit.value then
          (offset0, selfOffset + l.limit.value - offset0)
        else (offset0, limit0);
      Limits(if limit != 0 then Some(limit) else l.limit, Some(offset))
  }

  /** On a query without limits `qs[start:stop]` selects `stop - start` rows
      from `start`; `stop < start` stores a negative limit, and `stop ==
      start` stores none. */
  lemma SliceFresh(s: int, t: int)
    ensures SliceLimits(Limits(None, None), Some(s), Some(t)) ==
      if t == s then Limits(None, Some(s)) else Limits(Some(t - s), Some(s))
    ensures t < s ==> SliceLimits(Limits(None, None), Some(s), Some(t)).limit.value < 0
  {
  }

  /** Inside a window of `L > 0` rows from `O`, `qs[s:t]` with `0 <= s < t`
      and `s < L` selects the rows the two windows share: from `O + s` up to
      `O + min(t, L)`. */
  lemma SliceWithinWindow(o: int, lim: int, s: int, t: int)
    requires lim > 0 && 0 <= s < t && s < lim
    ensures var r := SliceLimits(Limits(Some(lim), Some(o)), Some(s), Some(t));
            r.offset == Some(o + s) && r.limit.Some? && r.offset.value + r.limit.value == o + Min(t, lim)
  {
  }

  /** Without a `stop` only the offset moves; the limit stays. */
  lemma SliceOpenEnd(l: Limits, s: int)
    ensures SliceLimits(l, Some(s), None) ==
      Limits(l.limit, Some((if l.offset.Some? then l.offset.value else 0) + s))
  {
  }

  /** The window checks sit under the `stop` test, so an open slice of a
      limited set only moves the offset: `qs[0:5][2:]` reads rows 3 to 7
      and `qs[0:5][7:]` rows 8 to 12, neither cut to the first five. */
  lemma SliceOpenIgnoresWindow()
    ensures var first := SliceLimits(Limits(None, None), Some(0), Some(5));
            first == Limits(Some(5), Some(0)) &&
            SliceLimits(first, Some(2), None) == Limits(Some(5), Some(2)) &&
            SliceLimits(first, Some(7), None) == Limits(Some(5), Some(7))
  {
  }

  /** A computed limit of zero is not written, so `qs[0:5][5:10]`, which
      should select no row, selects the five rows after the first five. */
  lemma SliceZeroKeepsLimit()
    ensures var first := SliceLimits(Limits(None, None), Some(0), Some(5));
            first == Limits(Some(5), Some(0)) &&
            SliceLimits(first, Some(5), Some(10)) == Limits(Some(5), Some(5))
  {
  }

  /** A start past the end of a window of `L > 0` rows resets the offset and,
      the limit being zero, keeps the whole window. */
  lemma SliceBeyondWindow(o: int, lim: int, s: int, t: int)
    requires lim > 0 && s > lim
    ensures SliceLimits(Limits(Some(lim), Some(o)), Some(s), Some(t)) == Limits(Some(lim), Some(o))
  {
  }

  /** Slices of slices on a set without limits: `qs[2:7][1:3]` selects two
      rows from the fourth, and `qs[8:20][0:5]` five rows from the ninth, of
      which a table of ten rows has only two. */
  lemma SliceOfSliceExamples()
    ensures SliceLimits(SliceLimits(Limits(None, None), Some(2), Some(7)), Some(1), Some(3)) ==
      Limits(Some(2), Some(3))
    ensures SliceLimits(SliceLimits(Limits(None, None), Some(8), Some(20)), Some(0), Some(5)) ==
      Limits(Some(5), Some(8))
  {
  }
}
