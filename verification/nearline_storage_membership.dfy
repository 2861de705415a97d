/** The NearlineStorageMembership view: nearline files that belong to no item,
    as a summary bar, a pie by file state and a bar per date; clicking a date
    bar opens the file list for the thirty days from that date. */
module NearlineStorageMembership {
  import opened Common
  import opened ChartMode
  import Text
  import VSFileSearchView

  /** One entry of the response's `states`. */
  datatype StateTotal = StateTotal(state: string, count: int, totalSize: int)

  /** One entry of the response's `noMembershipTimeBreakdown`; the JSON field of `docCount` is `doc_count`. */
  datatype DateBucket = DateBucket(date: string, docCount: int)

  /** The `/api/nearline/membership` response body. */
  datatype MembershipReport = MembershipReport(
    totalCount: int,
    noMembership: int,
    totalSize: int,
    states: seq<StateTotal>,
    noMembershipTimeBreakdown: seq<DateBucket>)

  /** `{datapoints, labels}`, the shape of pieData, barData and summaryData. */
  datatype ChartSeries = ChartSeries(datapoints: seq<int>, labels: seq<string>)

  datatype View = View(
    loading: bool,
    lastError: Option<string>,
    totalCount: int,
    noMembership: int,
    totalSize: int,
    states: seq<StateTotal>,
    noMembershipTimeBreakdown: seq<DateBucket>,
    pieData: Option<ChartSeries>,
    barData: Option<ChartSeries>,
    summaryData: Option<ChartSeries>,
    chartMode: int,
    showFilesList: bool,
    selectedDateSection: Option<string>)

  const Initial: View := View(false, None, 0, 0, 0, [], [], None, None, None, CHART_MODE_COUNT, false, None)

  const Colours: seq<Colour> := MakeColourValues(10, 10)

  const SummaryLabels: seq<string> := ["Attached to items", "Not attached to items"]

  /** The file list covers thirty days from the chosen date, in seconds. */
  const FileListDuration: int := 30 * 3600 * 24

  // ---------------------------------------------------------------------------
  // refreshChartData

  /** `states.reduce((acc, entry) => acc + entry.totalSize, 0)`: a left fold. */
  function SizeSum(states: seq<StateTotal>): int
  {
    if states == [] then 0 else SizeSum(states[..|states| - 1]) + states[|states| - 1].totalSize
  }

  /** The fold adds up piecewise, whatever way the states are divided. */
  lemma {:induction false} SizeSumAppend(a: seq<StateTotal>, b: seq<StateTotal>)
    ensures SizeSum(a + b) == SizeSum(a) + SizeSum(b)
    decreases |b|
  {
    if b == [] {
      assert a + b == a;
    } else {
      var b' := b[..|b| - 1];
      SizeSumAppend(a, b');
      assert (a + b)[..|a + b| - 1] == a + b';
    }
  }

  /** With no negative size among the states the attached share is non-negative. */
  lemma {:induction false} SizeSumNonNegative(states: seq<StateTotal>)
    requires forall i :: 0 <= i < |states| ==> states[i].totalSize >= 0
    ensures SizeSum(states) >= 0
    decreases |states|
  {
    if states != [] {
      SizeSumNonNegative(states[..|states| - 1]);
    }
  }

  /** The pie value of one state: its count in count mode, its size in any other mode. */
  function PieValue(entry: StateTotal, chartMode: int): int
  {
    if ModeOf(chartMode) == Count then entry.count else entry.totalSize
  }

  function PieData(states: seq<StateTotal>, chartMode: int): (pie: ChartSeries)
    ensures |pie.datapoints| == |pie.labels| == |states|
    ensures forall i :: 0 <= i < |states| ==>
              pie.datapoints[i] == PieValue(states[i], chartMode) && pie.labels[i] == states[i].state
  {
    if states == [] then ChartSeries([], [])
    else
      var rest := PieData(states[1..], chartMode);
      ChartSeries([PieValue(states[0], chartMode)] + rest.datapoints, [states[0].state] + rest.labels)
  }

  function BarData(buckets: seq<DateBucket>): (bar: ChartSeries)
    ensures |bar.datapoints| == |bar.labels| == |buckets|
    ensures forall i :: 0 <= i < |buckets| ==>
              bar.datapoints[i] == buckets[i].docCount && bar.labels[i] == buckets[i].date
  {
    if buckets == [] then ChartSeries([], [])
    else
      var rest := BarData(buckets[1..]);
      ChartSeries([buckets[0].docCount] + rest.datapoints, [buckets[0].date] + rest.labels)
  }

  /** The two-part summary: attached share first, then the unattached share. */
  function SummaryData(v: View): (summary: ChartSeries)
    ensures summary.labels == SummaryLabels && |summary.datapoints| == 2
    ensures ModeOf(v.chartMode) == Count ==>
              && summary.datapoints[1] == v.noMembership
              && summary.datapoints[0] + summary.datapoints[1] == v.totalCount
    ensures ModeOf(v.chartMode) != Count ==>
              && summary.datapoints[1] == SizeSum(v.states)
              && summary.datapoints[0] + summary.datapoints[1] == v.totalSize
  {
    var allStateSizes := SizeSum(v.states);
    var counting := ModeOf(v.chartMode) == Count;
    ChartSeries([if counting then v.totalCount - v.noMembership else v.totalSize - allStateSizes,
                 if counting then v.noMembership else allStateSizes],
                SummaryLabels)
  }

  /** `refreshChartData`: rebuilds the three chart series from the stored
      report and the current mode, and touches nothing else. */
  function RefreshChartData(v: View): (w: View)
    ensures w.pieData == Some(PieData(v.states, v.chartMode))
    ensures w.barData == Some(BarData(v.noMembershipTimeBreakdown))
    ensures w.summaryData == Some(SummaryData(v))
    ensures w.(pieData := v.pieData, barData := v.barData, summaryData := v.summaryData) == v
  {
    v.(pieData := Some(PieData(v.states, v.chartMode)),
       barData := Some(BarData(v.noMembershipTimeBreakdown)),
       summaryData := Some(SummaryData(v)))
  }

  /** Every summary entry has a label, and the summary colours `Colours[2 * idx]` exist. */
  lemma SummaryLabelled(v: View)
    ensures
      var s := RefreshChartData(v).summaryData.value;
      && |s.datapoints| == |s.labels| == 2
      && forall idx :: 0 <= idx < |s.datapoints| ==> 2 * idx < |Colours|
  {
  }

  // ---------------------------------------------------------------------------
  // The refresh cycle and the mode selector

  function StartRefresh(v: View): (w: View)
    ensures w == v.(loading := true)
  {
    v.(loading := true)
  }

  /** How the request settles. Success stores the report, clears the error and
      rebuilds the charts; failure changes only `loading` and `lastError`. */
  function Refreshed(v: View, response: Response<MembershipReport>): (w: View)
    ensures !w.loading && w.chartMode == v.chartMode
    ensures w.showFilesList == v.showFilesList && w.selectedDateSection == v.selectedDateSection
    ensures response.Ok? ==>
              && w.lastError == None
              && w.totalCount == response.body.totalCount
              && w.noMembership == response.body.noMembership
              && w.totalSize == response.body.totalSize
              && w.states == response.body.states
              && w.noMembershipTimeBreakdown == response.body.noMembershipTimeBreakdown
              && w.pieData == Some(PieData(response.body.states, v.chartMode))
              && w.barData == Some(BarData(response.body.noMembershipTimeBreakdown))
              && w.summaryData == Some(SummaryData(w))
    ensures response.Failed? ==> w == v.(loading := false, lastError := Some(response.error))
  {
    match response
    case Ok(report) =>
      RefreshChartData(v.(loading := false, lastError := None,
                          totalCount := report.totalCount, noMembership := report.noMembership,
                          totalSize := report.totalSize, states := report.states,
                          noMembershipTimeBreakdown := report.noMembershipTimeBreakdown))
    case Failed(e) => v.(loading := false, lastError := Some(e))
  }

  /** A failed refresh leaves the totals, the states, the breakdown and the charts as they were. */
  lemma FailureKeepsData(v: View, error: string)
    ensures
      var w := Refreshed(v, Failed(error));
      && !w.loading && w.lastError == Some(error)
      && w.totalCount == v.totalCount && w.noMembership == v.noMembership && w.totalSize == v.totalSize
      && w.states == v.states && w.noMembershipTimeBreakdown == v.noMembershipTimeBreakdown
      && w.pieData == v.pieData && w.barData == v.barData && w.summaryData == v.summaryData
  {
  }

  /** After a successful refresh the summary splits the report's total (count
      or size, by mode) into an attached and an unattached share. */
  lemma SummaryPartitionsTotal(v: View, report: MembershipReport)
    ensures
      var s := Refreshed(v, Ok(report)).summaryData.value.datapoints;
      && |s| == 2
      && (ModeOf(v.chartMode) == Count ==> s[1] == report.noMembership && s[0] + s[1] == report.totalCount)
      && (ModeOf(v.chartMode) != Count ==> s[1] == SizeSum(report.states) && s[0] + s[1] == report.totalSize)
  {
  }

  /** The view mounts with no charts and the file list hidden. The first
      successful refresh builds all three charts in count mode, with the
      summary splitting the total count around the unattached files, and the
      file list stays hidden. */
  lemma MountBuildsCountCharts(report: MembershipReport)
    ensures Initial.pieData.None? && Initial.barData.None? && Initial.summaryData.None?
    ensures
      var w := Refreshed(StartRefresh(Initial), Ok(report));
      && w.pieData == Some(PieData(report.states, CHART_MODE_COUNT))
      && w.barData == Some(BarData(report.noMembershipTimeBreakdown))
      && w.summaryData.Some?
      && w.summaryData.value.datapoints == [report.totalCount - report.noMembership, report.noMembership]
      && !FilesListProps(w).visible
  {
    var w := Refreshed(StartRefresh(Initial), Ok(report));
    SummaryPartitionsTotal(StartRefresh(Initial), report);
    assert |w.summaryData.value.datapoints| == 2;
  }

  /** The mode selector: store the parsed mode and rebuild the charts for it;
      the report, `loading`, the error and the file-list selection stay. */
  function ModeChanged(v: View, code: int): (w: View)
    ensures w.chartMode == code
    ensures w.pieData == Some(PieData(v.states, code))
    ensures w.barData == Some(BarData(v.noMembershipTimeBreakdown))
    ensures w.summaryData == Some(SummaryData(v.(chartMode := code)))
    ensures w.(chartMode := v.chartMode, pieData := v.pieData, barData := v.barData, summaryData := v.summaryData) == v
  {
    RefreshChartData(v.(chartMode := code))
  }

  // ---------------------------------------------------------------------------
  // Clicking a date bar

  /** `onElementsClick`. `clicked` is the index of the first element hit, `None`
      when none was; that, or a chart without data, makes the handler throw
      before it changes anything. An index past the labels selects `undefined`. */
  function BarClicked(v: View, clicked: Option<nat>): (w: View)
    ensures clicked.None? || v.barData.None? ==> w == v
    ensures clicked.Some? && v.barData.Some? ==>
              && w.showFilesList
              && w.selectedDateSection ==
                   (if clicked.value < |v.barData.value.labels|
                    then Some(v.barData.value.labels[clicked.value]) else None)
              && w == v.(selectedDateSection := w.selectedDateSection, showFilesList := true)
  {
    if clicked.None? || v.barData.None? then v
    else
      var labels := v.barData.value.labels;
      var i := clicked.value;
      v.(selectedDateSection := if i < |labels| then Some(labels[i]) else None, showFilesList := true)
  }

  /** The props the embedded file list receives. */
  function FilesListProps(v: View): VSFileSearchView.Props
  {
    VSFileSearchView.Props(v.selectedDateSection, Some(FileListDuration), v.showFilesList)
  }

  /** Clicking bar i after a successful refresh selects the i-th date of the
      breakdown; when that date is new and non-empty the file list then
      requests thirty days of files from it. */
  lemma BarClickRequestsFiles(v: View, report: MembershipReport, i: nat, listView: VSFileSearchView.View)
    requires i < |report.noMembershipTimeBreakdown|
    requires report.noMembershipTimeBreakdown[i].date != ""
    requires v.selectedDateSection != Some(report.noMembershipTimeBreakdown[i].date)
    ensures
      var before := Refreshed(v, Ok(report));
      var after := BarClicked(before, Some(i));
      var date := report.noMembershipTimeBreakdown[i].date;
      && after.selectedDateSection == Some(date)
      && after.showFilesList
      && VSFileSearchView.DidUpdate(FilesListProps(before), FilesListProps(after), listView).request
           == Some(VSFileSearchView.FilesEndpoint + "?start=" + date + "&duration=2592000")
  {
    var before := Refreshed(v, Ok(report));
    var after := BarClicked(before, Some(i));
    var date := report.noMembershipTimeBreakdown[i].date;
    assert before.barData.value.labels[i] == date;
    assert FilesListProps(after) == VSFileSearchView.Props(Some(date), Some(FileListDuration), true);
    assert VSFileSearchView.ShouldReload(FilesListProps(before), FilesListProps(after));
    FileListRequest(date);
  }

  /** The file list opened on a non-empty date asks for thirty days of files from it. */
  lemma FileListRequest(date: string)
    requires date != ""
    ensures VSFileSearchView.RequestUri(VSFileSearchView.Props(Some(date), Some(FileListDuration), true))
              == Some(VSFileSearchView.FilesEndpoint + "?start=" + date + "&duration=2592000")
  {
    var p := VSFileSearchView.Props(Some(date), Some(FileListDuration), true);
    VSFileSearchView.RequestUriText(p);
    var prefix := VSFileSearchView.FilesEndpoint + "?start=" + date;
    var digits := Text.IntToString(FileListDuration);
    assert VSFileSearchView.RequestUri(p) == Some(prefix + "&duration=" + digits);
    assert digits == "2592000" by { DurationDigits(); }
    assert prefix + "&duration=" + "2592000" == prefix + "&duration=2592000";
  }

  lemma DurationDigits()
    ensures Text.IntToString(FileListDuration) == "2592000"
  {
    assert Text.Decimal(2) == "2";
    assert Text.Decimal(25) == "25";
    assert Text.Decimal(259) == "259";
    assert Text.Decimal(2592) == "2592";
    assert Text.Decimal(25920) == "25920";
    assert Text.Decimal(259200) == "259200";
    assert Text.Decimal(2592000) == "2592000";
  }
}
