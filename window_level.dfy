/** The greyscale display range handed to a lookup table (server scripts)
    or to an RGB transfer function (the browser client): the range centred
    on the window level (centre) whose length is the window width. */
module WindowLevel {

  /** A closed intensity interval [low, high]. */
  datatype Range = Range(low: real, high: real)

  /** `level - window/2` and `level + window/2`. */
  function WindowRange(level: real, window: real): (r: Range)
    ensures r.high - r.low == window
    ensures (r.low + r.high) / 2.0 == level
  {
    Range(level - window / 2.0, level + window / 2.0)
  }

  /** Width and midpoint determine the range: no other range has the
      window's width and the level as its midpoint. */
  lemma WindowRangeUnique(level: real, window: real, r: Range)
    ensures (r.high - r.low == window && (r.low + r.high) / 2.0 == level) <==> r == WindowRange(level, window)
  {
    if r.high - r.low == window && (r.low + r.high) / 2.0 == level {
      assert r.low == level - window / 2.0;
      assert r.high == level + window / 2.0;
    }
  }
}
