/** The NearlineStorageArchived view: how many nearline files (or how many bytes)
    also have a copy in the archive, as a two-slice pie. */
module NearlineStorageArchived {
  import opened Common
  import opened ChartMode
  import Text
  import Commas

  /** The `/api/nearline/archivedStats` response body. */
  datatype ArchivedStats = ArchivedStats(
    missingArchiveIdTotalsize: int,
    withArchiveIdTotalsize: int,
    missingArchiveIdCount: int,
    withArchiveIdCount: int,
    totalCount: int,
    totalSize: int)

  datatype View = View(
    loading: bool,
    lastError: Option<string>,
    notArchivedTotalsize: int,
    inArchiveTotalsize: int,
    notArchivedCount: int,
    inArchiveCount: int,
    totalSize: int,
    totalCount: int,
    dataMode: int)

  const Initial: View := View(false, None, 0, 0, 0, 0, 0, 0, CHART_MODE_COUNT)

  // ---------------------------------------------------------------------------
  // loadData

  function StartLoad(v: View): (w: View)
    ensures w == v.(loading := true)
  {
    v.(loading := true)
  }

  /** How the request settles. Success copies the six numbers across under the
      view's names and clears the error; failure changes only `loading` and
      `lastError`. Neither touches the mode. */
  function Loaded(v: View, response: Response<ArchivedStats>): (w: View)
    ensures !w.loading && w.dataMode == v.dataMode
    ensures response.Ok? ==>
              var s := response.body;
              && w.lastError == None
              && w.notArchivedTotalsize == s.missingArchiveIdTotalsize
              && w.inArchiveTotalsize == s.withArchiveIdTotalsize
              && w.notArchivedCount == s.missingArchiveIdCount
              && w.inArchiveCount == s.withArchiveIdCount
              && w.totalCount == s.totalCount
              && w.totalSize == s.totalSize
    ensures response.Failed? ==> w == v.(loading := false, lastError := Some(response.error))
  {
    match response
    case Ok(s) =>
      v.(loading := false, lastError := None,
         notArchivedTotalsize := s.missingArchiveIdTotalsize,
         inArchiveTotalsize := s.withArchiveIdTotalsize,
         notArchivedCount := s.missingArchiveIdCount,
         inArchiveCount := s.withArchiveIdCount,
         totalCount := s.totalCount,
         totalSize := s.totalSize)
    case Failed(e) => v.(loading := false, lastError := Some(e))
  }

  /** `changeDataMode`: only the mode changes. */
  function DataModeChanged(v: View, code: int): (w: View)
    ensures w.dataMode == code
    ensures w.(dataMode := v.dataMode) == v
  {
    v.(dataMode := code)
  }

  // ---------------------------------------------------------------------------
  // makePieData

  /** The pie: slice values, slice labels, and slice colours (absent in the
      fallback case, where the object has no `backgroundColor`). */
  datatype PieData = PieData(data: seq<int>, labels: seq<string>, backgroundColor: Option<seq<Colour>>)

  const Colours: seq<Colour> := MakeColourValues(4, 0)

  const CountLabels: seq<string> := ["In archive and nearline", "Nearline only"]
  const SizeLabels: seq<string> := ["Data in archive and nearline", "Data in nearline only"]
  const InvalidModeLabel: string := "Invalid mode, this is a code bug"

  /** `makePieData`: archived share first, nearline-only share second. */
  function MakePieData(v: View): (pie: PieData)
    ensures |pie.data| == |pie.labels|
    ensures pie.backgroundColor.Some? ==> |pie.backgroundColor.value| == |pie.data|
    ensures ModeOf(v.dataMode) == Count ==>
              pie == PieData([v.inArchiveCount, v.notArchivedCount], CountLabels, Some([Hsla(0, 4, 0), Hsla(1, 4, 0)]))
    ensures ModeOf(v.dataMode) == Size ==>
              pie == PieData([v.inArchiveTotalsize, v.notArchivedTotalsize], SizeLabels, Some([Hsla(0, 4, 0), Hsla(1, 4, 0)]))
    ensures ModeOf(v.dataMode).Other? ==> pie == PieData([0], [InvalidModeLabel], None)
  {
    match ModeOf(v.dataMode)
    case Count => PieData([v.inArchiveCount, v.notArchivedCount], CountLabels, Some([Colours[0], Colours[1]]))
    case Size => PieData([v.inArchiveTotalsize, v.notArchivedTotalsize], SizeLabels, Some([Colours[0], Colours[1]]))
    case Other(_) => PieData([0], [InvalidModeLabel], None)
  }

  /** After a successful load the pie shows the response's "with archive id"
      figure, then its "missing archive id" figure, for the current mode. */
  lemma PieShowsLoadedStats(v: View, stats: ArchivedStats)
    ensures ModeOf(v.dataMode) == Count ==>
              MakePieData(Loaded(v, Ok(stats))).data == [stats.withArchiveIdCount, stats.missingArchiveIdCount]
    ensures ModeOf(v.dataMode) == Size ==>
              MakePieData(Loaded(v, Ok(stats))).data == [stats.withArchiveIdTotalsize, stats.missingArchiveIdTotalsize]
  {
  }

  /** The view mounts in count mode with every figure zero, so until the first
      load succeeds (and after it fails) the pie shows two empty count slices;
      once it succeeds the pie shows the response's counts. */
  lemma MountShowsCounts(stats: ArchivedStats, error: string)
    ensures MakePieData(Initial) == PieData([0, 0], CountLabels, Some([Hsla(0, 4, 0), Hsla(1, 4, 0)]))
    ensures MakePieData(Loaded(StartLoad(Initial), Failed(error))).data == [0, 0]
    ensures MakePieData(Loaded(StartLoad(Initial), Ok(stats))).data
            == [stats.withArchiveIdCount, stats.missingArchiveIdCount]
  {
  }

  // ---------------------------------------------------------------------------
  // The tooltip and the headline figure

  /** The tooltip for a slice labelled `xLabel` with value `rawValue`. The byte
      formatter is passed in as `bytes`; its source is not part of this model. */
  function Tooltip(mode: int, xLabel: string, rawValue: int, bytes: int -> (string, string)): (text: string)
    ensures ModeOf(mode) == Count ==> text == xLabel + ": " + Commas.NumberWithCommas(rawValue)
    ensures ModeOf(mode) == Size ==> text == xLabel + ": " + bytes(rawValue).0 + bytes(rawValue).1
    ensures ModeOf(mode).Other? ==> text == "invalid mode"
  {
    match ModeOf(mode)
    case Size => xLabel + ": " + bytes(rawValue).0 + bytes(rawValue).1
    case Count => xLabel + ": " + Commas.NumberWithCommas(rawValue)
    case Other(_) => "invalid mode"
  }

  /** The tooltip of slice `index` in count mode names the slice and, after the
      colon, gives its count with thousands separators. */
  lemma CountTooltipNamesSlice(v: View, index: nat, bytes: int -> (string, string))
    requires v.dataMode == CHART_MODE_COUNT
    requires index < 2
    requires v.inArchiveCount >= 0 && v.notArchivedCount >= 0
    ensures
      var pie := MakePieData(v);
      var t := Tooltip(v.dataMode, pie.labels[index], pie.data[index], bytes);
      var head := pie.labels[index] + ": ";
      && t[..|head|] == head
      && Text.Without(t[|head|..], ',') == Text.Decimal(pie.data[index])
  {
    var pie := MakePieData(v);
    var head := pie.labels[index] + ": ";
    var t := Tooltip(v.dataMode, pie.labels[index], pie.data[index], bytes);
    assert t == head + Commas.NumberWithCommas(pie.data[index]);
    assert t[|head|..] == Commas.NumberWithCommas(pie.data[index]);
    Commas.CommasStripToDecimal(pie.data[index]);
  }

  const CountMetricPrefix: string := "There are currently "
  const CountMetricSuffix: string := " items on the nearlines"
  const SizeMetricPrefix: string := "Total size of files on nearlines: "

  /** `renderTotalsMetric`, as the text it shows; `None` for a mode the switch
      has no case for, which renders nothing. */
  function TotalsMetric(v: View, bytes: int -> (string, string)): (text: Option<string>)
    ensures text.None? <==> ModeOf(v.dataMode).Other?
    ensures ModeOf(v.dataMode) == Count ==>
              text == Some(CountMetricPrefix + Commas.NumberWithCommas(v.totalCount) + CountMetricSuffix)
    ensures ModeOf(v.dataMode) == Size ==>
              text == Some(SizeMetricPrefix + bytes(v.totalSize).0 + " " + bytes(v.totalSize).1)
  {
    match ModeOf(v.dataMode)
    case Count => Some(CountMetricPrefix + Commas.NumberWithCommas(v.totalCount) + CountMetricSuffix)
    case Size => Some(SizeMetricPrefix + bytes(v.totalSize).0 + " " + bytes(v.totalSize).1)
    case Other(_) => None
  }

  /** In count mode the headline figure, read back between its fixed words with
      the commas removed, is the total count's decimal digits. */
  lemma CountMetricReadsBack(v: View, bytes: int -> (string, string))
    requires v.dataMode == CHART_MODE_COUNT && v.totalCount >= 0
    ensures
      var t := TotalsMetric(v, bytes).value;
      && |t| >= |CountMetricPrefix| + |CountMetricSuffix|
      && t[..|CountMetricPrefix|] == CountMetricPrefix
      && t[|t| - |CountMetricSuffix|..] == CountMetricSuffix
      && Text.Without(t[|CountMetricPrefix|..|t| - |CountMetricSuffix|], ',') == Text.Decimal(v.totalCount)
  {
    var figure := Commas.NumberWithCommas(v.totalCount);
    var t := CountMetricPrefix + figure + CountMetricSuffix;
    assert t[..|CountMetricPrefix|] == CountMetricPrefix;
    assert t[|t| - |CountMetricSuffix|..] == CountMetricSuffix;
    assert t[|CountMetricPrefix|..|t| - |CountMetricSuffix|] == figure;
    Commas.CommasStripToDecimal(v.totalCount);
  }
}
