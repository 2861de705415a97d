/** The chart mode the nearline views share, and the colour ramp each of them builds. */
module ChartMode {

  /** NearlineControlsBanner.CHART_MODE_COUNT and CHART_MODE_SIZE (NearlineStorages
      declares the same two numbers as COUNT_MODE and SIZE_MODE). */
  const CHART_MODE_COUNT: int := 1
  const CHART_MODE_SIZE: int := 2

  /** What a view does with the integer it keeps in its mode field. */
  datatype Mode = Count | Size | Other(code: int)

  /** How the views' `switch` / `===` tests read the stored integer. */
  function ModeOf(code: int): (m: Mode)
    ensures m == Count <==> code == CHART_MODE_COUNT
    ensures m == Size <==> code == CHART_MODE_SIZE
  {
    if code == CHART_MODE_COUNT then Count
    else if code == CHART_MODE_SIZE then Size
    else Other(code)
  }

  /** The integer a mode is stored as. */
  function CodeOf(m: Mode): int
  {
    match m
    case Count => CHART_MODE_COUNT
    case Size => CHART_MODE_SIZE
    case Other(c) => c
  }

  /** An `Other` mode never carries one of the two recognised codes. */
  predicate WellFormed(m: Mode)
  {
    m.Other? ==> m.code != CHART_MODE_COUNT && m.code != CHART_MODE_SIZE
  }

  /** Reading a stored code loses nothing, and every well-formed mode is read
      back from its own code. */
  lemma ModeCodeRoundTrip(code: int, m: Mode)
    ensures CodeOf(ModeOf(code)) == code && WellFormed(ModeOf(code))
    ensures WellFormed(m) ==> ModeOf(CodeOf(m)) == m
  {
  }

  /** The colour `makeColourValues(count, offset)` puts at index n: the HSLA
      colour of hue (n / count) * 360 + offset. The hue arithmetic is floating
      point and is kept symbolic. */
  datatype Colour = Hsla(step: nat, count: int, offset: int)

  /** The first n colours of the ramp, as the `for` loop leaves `values` after n rounds. */
  function ColoursUpTo(n: nat, count: int, offset: int): (values: seq<Colour>)
    ensures |values| == n
    ensures forall k :: 0 <= k < n ==> values[k] == Hsla(k, count, offset)
  {
    if n == 0 then [] else ColoursUpTo(n - 1, count, offset) + [Hsla(n - 1, count, offset)]
  }

  /** `makeColourValues(count, offset)`: one colour per index below count, none
      when count is zero or negative. */
  function MakeColourValues(count: int, offset: int): (values: seq<Colour>)
    ensures |values| == if count < 0 then 0 else count
    ensures forall k :: 0 <= k < |values| ==> values[k] == Hsla(k, count, offset)
  {
    ColoursUpTo(if count < 0 then 0 else count, count, offset)
  }
}
