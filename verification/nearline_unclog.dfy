/** The NearlineUnclog view: one stacked horizontal bar splitting the nearline
    files by media status, by count or by total size. */
module NearlineUnclog {
  import opened Common
  import opened ChartMode
  import Text

  /** One entry of the `/api/unclog/mediaStatus` response. */
  datatype StatusEntry = StatusEntry(statusLabel: string, count: int, size: int)

  datatype View = View(loading: bool, lastError: Option<string>, chartMode: int, allData: Option<seq<StatusEntry>>)

  const Initial: View := View(false, None, CHART_MODE_COUNT, None)

  /** The class-level `colourValues`: nineteen colours from hue offset 10. */
  const Colours: seq<Colour> := MakeColourValues(19, 10)

  // ---------------------------------------------------------------------------
  // refresh

  function StartRefresh(v: View): (w: View)
    ensures w == v.(loading := true)
  {
    v.(loading := true)
  }

  /** How the request settles. Success stores the list but leaves any earlier
      error in place; failure keeps the previous list. */
  function Refreshed(v: View, response: Response<seq<StatusEntry>>): (w: View)
    ensures !w.loading && w.chartMode == v.chartMode
    ensures response.Ok? ==> w.allData == Some(response.body) && w.lastError == v.lastError
    ensures response.Failed? ==> w.allData == v.allData && w.lastError == Some(response.error)
  {
    match response
    case Ok(entries) => v.(loading := false, allData := Some(entries))
    case Failed(e) => v.(loading := false, lastError := Some(e))
  }

  /** The mode selector: store the parsed mode, then start a fresh request. */
  function ModeChanged(v: View, code: int): (w: View)
    ensures w.chartMode == code && w.loading
    ensures w.allData == v.allData && w.lastError == v.lastError
  {
    StartRefresh(v.(chartMode := code))
  }

  // ---------------------------------------------------------------------------
  // The datasets

  /** One stacked segment of the bar. */
  datatype Dataset = Dataset(data: seq<int>, datasetLabel: string, backgroundColor: Option<Colour>)

  /** What building the datasets yields: the datasets, or the string thrown. */
  datatype Outcome<+T> = Drawn(value: T) | Thrown(message: string)

  const InvalidModeMessage: string := "Invalid mode for component, should be count or size."

  /** `colourValues[idx*2]`: `undefined` once the index runs past the nineteen colours. */
  function ColourFor(idx: nat): (c: Option<Colour>)
    ensures c.Some? <==> idx <= 9
    ensures c.Some? ==> c.value == Hsla(2 * idx, 19, 10)
  {
    if 2 * idx < |Colours| then Some(Colours[2 * idx]) else None
  }

  /** The segment for the entry at position idx; count mode plots the count,
      size mode the size. */
  function SegmentAt(entry: StatusEntry, idx: nat, mode: Mode): Dataset
    requires !mode.Other?
  {
    Dataset(if mode == Count then [entry.count] else [entry.size], entry.statusLabel, ColourFor(idx))
  }

  /** The segments for `entries`, numbered from `first`. */
  function SegmentsFrom(entries: seq<StatusEntry>, first: nat, mode: Mode): (ds: seq<Dataset>)
    requires !mode.Other?
    ensures |ds| == |entries|
    ensures forall i :: 0 <= i < |entries| ==> ds[i] == SegmentAt(entries[i], first + i, mode)
  {
    if entries == [] then []
    else [SegmentAt(entries[0], first, mode)] + SegmentsFrom(entries[1..], first + 1, mode)
  }

  /** The `datasets` expression: nothing when no list has arrived, one segment
      per entry in order otherwise; the `map` callback throws on the first
      entry when the mode is neither count nor size, so an empty list never throws. */
  function Datasets(allData: Option<seq<StatusEntry>>, chartMode: int): (r: Outcome<seq<Dataset>>)
    ensures r.Thrown? <==> allData.Some? && allData.value != [] && ModeOf(chartMode).Other?
    ensures r.Thrown? ==> r.message == InvalidModeMessage
    ensures allData.None? ==> r == Drawn([])
    ensures r.Drawn? && allData.Some? ==> |r.value| == |allData.value|
  {
    match allData
    case None => Drawn([])
    case Some(entries) =>
      if entries == [] then Drawn([])
      else match ModeOf(chartMode)
        case Other(_) => Thrown(InvalidModeMessage)
        case m => Drawn(SegmentsFrom(entries, 0, m))
  }

  /** Segment i carries entry i's label and its count (count mode) or its size
      (size mode), coloured from every other ramp colour while they last. */
  lemma DatasetsFollowEntries(entries: seq<StatusEntry>, chartMode: int, i: nat)
    requires chartMode == CHART_MODE_COUNT || chartMode == CHART_MODE_SIZE
    requires i < |entries|
    ensures Datasets(Some(entries), chartMode).Drawn?
    ensures
      var d := Datasets(Some(entries), chartMode).value[i];
      && d.datasetLabel == entries[i].statusLabel
      && d.data == (if chartMode == CHART_MODE_COUNT then [entries[i].count] else [entries[i].size])
      && (d.backgroundColor.Some? <==> i < 10)
  {
  }

  // ---------------------------------------------------------------------------
  // The x axis

  /** 2^40: one tebibyte. */
  const TiB: int := 1099511627776

  function Pow2(k: nat): (p: nat)
    ensures p >= 1
  {
    if k == 0 then 1 else 2 * Pow2(k - 1)
  }

  lemma TiBIsPow2()
    ensures TiB == Pow2(40)
  {
    assert Pow2(10) == 1024;
    assert Pow2(20) == Pow2(10) * Pow2(10) by { Pow2Add(10, 10); }
    assert Pow2(40) == Pow2(20) * Pow2(20) by { Pow2Add(20, 20); }
  }

  lemma {:induction false} Pow2Add(a: nat, b: nat)
    ensures Pow2(a + b) == Pow2(a) * Pow2(b)
    decreases a
  {
    if a > 0 {
      Pow2Add(a - 1, b);
      assert Pow2(a + b) == 2 * Pow2(a - 1 + b);
    }
  }

  /** A tick: text in size mode, the value itself otherwise. */
  datatype Tick = TickText(text: string) | TickValue(value: int)

  /** The tick callback: in size mode the whole number of TiB, rounded down, then "Tib". */
  function TickLabel(chartMode: int, value: int): (t: Tick)
    ensures chartMode != CHART_MODE_SIZE ==> t == TickValue(value)
    ensures chartMode == CHART_MODE_SIZE ==> t.TickText?
  {
    if chartMode == CHART_MODE_SIZE then TickText(Text.IntToString(value / TiB) + "Tib") else TickValue(value)
  }

  /** The size-mode tick names the one whole number q of TiB with
      q TiB <= value < (q + 1) TiB, negative values included. */
  lemma TickLabelFloor(value: int, q: int)
    requires q * TiB <= value < (q + 1) * TiB
    ensures TickLabel(CHART_MODE_SIZE, value) == TickText(Text.IntToString(q) + "Tib")
  {
    var r := value - q * TiB;
    assert 0 <= r < TiB;
    assert value == q * TiB + r;
    DivideUnique(value, TiB, q, r);
  }

  /** Dafny's `/` on a positive divisor rounds down, as `Math.floor(a / b)` does. */
  lemma DivideUnique(a: int, b: int, q: int, r: int)
    requires b > 0 && a == q * b + r && 0 <= r < b
    ensures a / b == q
  {
    var q' := a / b;
    var r' := a % b;
    assert a == q' * b + r';
    var d := q - q';
    assert d * b == r' - r by { MulDistributes(q, q', b); }
    if d >= 1 {
      MulAtLeast(d, b);
    } else if d <= -1 {
      MulAtLeast(-d, b);
    }
  }

  lemma MulDistributes(x: int, y: int, b: int)
    ensures (x - y) * b == x * b - y * b
  {
  }

  lemma MulAtLeast(k: int, b: int)
    requires k >= 1 && b > 0
    ensures k * b >= b
  {
  }

  /** `labelString`: "Total size" in size mode, "File count" in every other mode.
      The option sits on the axis itself rather than under `scaleLabel`, so the
      chart library never displays it; this is the value, not a shown title. */
  function AxisTitle(chartMode: int): (title: string)
    ensures title == "Total size" <==> chartMode == CHART_MODE_SIZE
    ensures title == "File count" <==> chartMode != CHART_MODE_SIZE
  {
    if chartMode == CHART_MODE_SIZE then "Total size" else "File count"
  }

  // ---------------------------------------------------------------------------
  // Mounting

  /** The view mounts with no list and draws nothing; once the first refresh
      succeeds it draws one count segment per entry, in order, and never throws. */
  lemma MountDrawsCounts(entries: seq<StatusEntry>)
    ensures Datasets(Initial.allData, Initial.chartMode) == Drawn([])
    ensures
      var w := Refreshed(StartRefresh(Initial), Ok(entries));
      var r := Datasets(w.allData, w.chartMode);
      && r.Drawn? && |r.value| == |entries|
      && (forall i :: 0 <= i < |entries| ==>
            r.value[i].data == [entries[i].count] && r.value[i].datasetLabel == entries[i].statusLabel)
  {
    var w := Refreshed(StartRefresh(Initial), Ok(entries));
    forall i | 0 <= i < |entries|
      ensures Datasets(w.allData, w.chartMode).value[i].data == [entries[i].count]
      ensures Datasets(w.allData, w.chartMode).value[i].datasetLabel == entries[i].statusLabel
    {
      DatasetsFollowEntries(entries, CHART_MODE_COUNT, i);
    }
  }
}
