/** The NearlineStorages view: per-storage state breakdowns regrouped into one
    series per state label, for the stacked bar chart. */
module NearlineStorages {
  import opened Common
  import opened ChartMode
  import opened Commas

  /** One `{state, count, totalSize}` entry of a storage's breakdown. */
  datatype StorageState = StorageState(state: string, count: int, totalSize: int)

  /** One storage of the `/api/nearline/currentState` response. */
  datatype StorageEntry = StorageEntry(storage: string, states: seq<StorageState>)

  /** A JSON object from state label to the series plotted for it. */
  type Points = map<string, seq<int>>

  datatype Grouping = Grouping(countPoints: Points, sizePoints: Points)

  /** The component state. `mode` is the integer the chart reads its mode from;
      `chartMode` is the slot the mode selector reads and writes, absent until
      the first selection. */
  datatype View = View(
    loading: bool,
    lastError: Option<string>,
    storageData: seq<StorageEntry>,
    countPoints: Points,
    sizePoints: Points,
    mode: int,
    chartMode: Option<int>)

  /** The constructor's initial state (the default mode is SIZE_MODE). */
  const Initial: View := View(false, None, [], map[], map[], CHART_MODE_SIZE, None)

  /** The colour table the bar datasets index into. */
  const Colours: seq<Colour> := MakeColourValues(5, 10)

  // ---------------------------------------------------------------------------
  // Reference definitions

  /** Every state entry in the response, storage by storage, each storage's entries in order. */
  function Reported(entries: seq<StorageEntry>): seq<StorageState>
  {
    if entries == [] then [] else Reported(entries[..|entries| - 1]) + entries[|entries| - 1].states
  }

  /** The state labels that occur anywhere in a list of state entries. */
  function Labels(sts: seq<StorageState>): set<string>
  {
    set i | 0 <= i < |sts| :: sts[i].state
  }

  /** The entries reporting `label`, in order. */
  function Matching(sts: seq<StorageState>, stateLabel: string): (ms: seq<StorageState>)
    ensures forall k :: 0 <= k < |ms| ==> ms[k].state == stateLabel && ms[k] in sts
  {
    if sts == [] then []
    else
      var last := sts[|sts| - 1];
      Matching(sts[..|sts| - 1], stateLabel) + (if last.state == stateLabel then [last] else [])
  }

  /** The size a state contributes to the chart: negative sizes count as zero. */
  function PlottedSize(size: int): (r: int)
    ensures r >= 0
    ensures r == size || (size < 0 && r == 0)
  {
    if size < 0 then 0 else size
  }

  function Counts(ms: seq<StorageState>): seq<int>
  {
    seq(|ms|, k requires 0 <= k < |ms| => ms[k].count)
  }

  function Sizes(ms: seq<StorageState>): seq<int>
  {
    seq(|ms|, k requires 0 <= k < |ms| => PlottedSize(ms[k].totalSize))
  }

  /** What `processData` must produce for a list of state entries: one key per
      label that occurs, holding the counts / plotted sizes of that label's entries in order. */
  predicate GroupsAs(g: Grouping, sts: seq<StorageState>)
  {
    && g.countPoints.Keys == Labels(sts)
    && g.sizePoints.Keys == Labels(sts)
    && (forall s :: s in g.countPoints ==> g.countPoints[s] == Counts(Matching(sts, s)))
    && (forall s :: s in g.sizePoints ==> g.sizePoints[s] == Sizes(Matching(sts, s)))
  }

  // ---------------------------------------------------------------------------
  // processData

  /** The `hasOwnProperty` branch: start a one-element series, or extend the existing one. */
  function Extend(points: Points, stateLabel: string, v: int): Points
  {
    if stateLabel in points then points[stateLabel := points[stateLabel] + [v]] else points[stateLabel := [v]]
  }

  /** Folding the entries, in order, into two initially empty objects. */
  function Tally(sts: seq<StorageState>): (g: Grouping)
    ensures GroupsAs(g, sts)
  {
    if sts == [] then Grouping(map[], map[])
    else
      var g := Tally(sts[..|sts| - 1]);
      var st := sts[|sts| - 1];
      TallyStep(g, sts[..|sts| - 1], st);
      assert sts[..|sts| - 1] + [st] == sts;
      Grouping(Extend(g.countPoints, st.state, st.count),
               Extend(g.sizePoints, st.state, PlottedSize(st.totalSize)))
  }

  lemma MatchingAbsent(sts: seq<StorageState>, stateLabel: string)
    requires stateLabel !in Labels(sts)
    ensures Matching(sts, stateLabel) == []
  {
  }

  lemma MatchingSnoc(sts: seq<StorageState>, st: StorageState, stateLabel: string)
    ensures Matching(sts + [st], stateLabel) == Matching(sts, stateLabel) + (if st.state == stateLabel then [st] else [])
  {
    assert (sts + [st])[..|sts|] == sts;
  }

  lemma LabelsSnoc(sts: seq<StorageState>, st: StorageState)
    ensures Labels(sts + [st]) == Labels(sts) + {st.state}
  {
    var t := sts + [st];
    assert t[|sts|].state == st.state;
    forall s | s in Labels(sts) ensures s in Labels(t) {
      var i :| 0 <= i < |sts| && sts[i].state == s;
      assert t[i] == sts[i];
    }
  }

  /** Adding one entry keeps `GroupsAs`. */
  lemma TallyStep(g: Grouping, sts: seq<StorageState>, st: StorageState)
    requires GroupsAs(g, sts)
    ensures GroupsAs(Grouping(Extend(g.countPoints, st.state, st.count),
                              Extend(g.sizePoints, st.state, PlottedSize(st.totalSize))), sts + [st])
  {
    var t := sts + [st];
    var c := Extend(g.countPoints, st.state, st.count);
    var z := Extend(g.sizePoints, st.state, PlottedSize(st.totalSize));
    LabelsSnoc(sts, st);
    forall s | s in c ensures c[s] == Counts(Matching(t, s)) && z[s] == Sizes(Matching(t, s)) {
      TallyStepAt(g, sts, st, s);
    }
  }

  /** Adding one entry, seen from one label: its series gains the entry's
      count and plotted size when the label is the entry's, and is unchanged otherwise. */
  lemma TallyStepAt(g: Grouping, sts: seq<StorageState>, st: StorageState, s: string)
    requires GroupsAs(g, sts)
    requires s == st.state || s in g.countPoints
    ensures Extend(g.countPoints, st.state, st.count)[s] == Counts(Matching(sts + [st], s))
    ensures Extend(g.sizePoints, st.state, PlottedSize(st.totalSize))[s] == Sizes(Matching(sts + [st], s))
  {
    MatchingSnoc(sts, st, s);
    if s == st.state && s !in g.countPoints {
      MatchingAbsent(sts, s);
    }
    TallyCountAt(g.countPoints, Matching(sts, s), st, s);
    TallySizeAt(g.sizePoints, Matching(sts, s), st, s);
  }

  lemma TallyCountAt(points: Points, m: seq<StorageState>, st: StorageState, s: string)
    requires s in points ==> points[s] == Counts(m)
    requires s !in points ==> s == st.state && m == []
    ensures Extend(points, st.state, st.count)[s] == Counts(m + (if st.state == s then [st] else []))
  {
    if s == st.state {
      CountsSnoc(m, st);
    } else {
      assert m + [] == m;
    }
  }

  lemma TallySizeAt(points: Points, m: seq<StorageState>, st: StorageState, s: string)
    requires s in points ==> points[s] == Sizes(m)
    requires s !in points ==> s == st.state && m == []
    ensures Extend(points, st.state, PlottedSize(st.totalSize))[s] == Sizes(m + (if st.state == s then [st] else []))
  {
    if s == st.state {
      SizesSnoc(m, st);
    } else {
      assert m + [] == m;
    }
  }

  lemma CountsSnoc(m: seq<StorageState>, st: StorageState)
    ensures Counts(m + [st]) == Counts(m) + [st.count]
  {
  }

  lemma SizesSnoc(m: seq<StorageState>, st: StorageState)
    ensures Sizes(m + [st]) == Sizes(m) + [PlottedSize(st.totalSize)]
  {
  }

  /** `processData` on the stored response. */
  function ProcessData(entries: seq<StorageEntry>): (g: Grouping)
    ensures GroupsAs(g, Reported(entries))
  {
    Tally(Reported(entries))
  }

  /** For each label the two series line up: as many plotted sizes as counts,
      and every plotted size is the entry's size clamped at zero. */
  lemma SeriesAgree(entries: seq<StorageEntry>, s: string)
    requires s in Labels(Reported(entries))
    ensures |ProcessData(entries).countPoints[s]| == |ProcessData(entries).sizePoints[s]| >= 1
    ensures forall k :: 0 <= k < |ProcessData(entries).sizePoints[s]| ==>
              ProcessData(entries).sizePoints[s][k] >= 0
  {
    var sts := Reported(entries);
    var ms := Matching(sts, s);
    var i :| 0 <= i < |sts| && sts[i].state == s;
    if ms == [] {
      MatchingHasAll(sts, s, i);
    }
  }

  /** Every entry with the label is kept by `Matching`. */
  lemma MatchingHasAll(sts: seq<StorageState>, stateLabel: string, i: nat)
    requires i < |sts| && sts[i].state == stateLabel
    ensures sts[i] in Matching(sts, stateLabel)
  {
    var init := sts[..|sts| - 1];
    if i < |sts| - 1 {
      MatchingHasAll(init, stateLabel, i);
    }
  }

  // ---------------------------------------------------------------------------
  // The refresh cycle

  /** `refresh` sets `loading` before it issues the request. */
  function StartRefresh(v: View): (w: View)
    ensures w.loading && w == v.(loading := true)
  {
    v.(loading := true)
  }

  /** How the request settles: on success the response is stored and
      `processData` rebuilds both series objects from it (an earlier error is
      left in place); on failure only `loading` and `lastError` change. */
  function Refreshed(v: View, response: Response<seq<StorageEntry>>): (w: View)
    ensures !w.loading && w.mode == v.mode && w.chartMode == v.chartMode
    ensures response.Ok? ==>
              && w.storageData == response.body
              && w.lastError == v.lastError
              && GroupsAs(Grouping(w.countPoints, w.sizePoints), Reported(response.body))
    ensures response.Failed? ==> w == v.(loading := false, lastError := Some(response.error))
  {
    match response
    case Ok(data) =>
      var g := ProcessData(data);
      v.(loading := false, storageData := data, countPoints := g.countPoints, sizePoints := g.sizePoints)
    case Failed(e) =>
      v.(loading := false, lastError := Some(e))
  }

  /** Nothing of the previous series survives a successful refresh: a stateLabel
      that the new response does not report is gone from both objects. */
  lemma RefreshForgetsOldLabels(v: View, data: seq<StorageEntry>, s: string)
    requires s in v.countPoints && s !in Labels(Reported(data))
    ensures s !in Refreshed(v, Ok(data)).countPoints
    ensures s !in Refreshed(v, Ok(data)).sizePoints
  {
  }

  // ---------------------------------------------------------------------------
  // Reading the series back for the chart

  /** What `dataForMode` returns: a series, `undefined` for a label that has
      none, or `null` for an unrecognised mode. */
  datatype Series = Values(points: seq<int>) | Undefined | Null

  function Lookup(points: Points, stateLabel: string): Series
  {
    if stateLabel in points then Values(points[stateLabel]) else Undefined
  }

  function DataForMode(v: View, mode: int, stateLabel: string): (r: Series)
    ensures r == Null <==> ModeOf(mode).Other?
  {
    match ModeOf(mode)
    case Count => Lookup(v.countPoints, stateLabel)
    case Size => Lookup(v.sizePoints, stateLabel)
    case Other(_) => Null
  }

  /** One bar dataset: its label, its colour (`undefined` past the five
      colours) and the label's series for the mode the chart reads. */
  datatype BarDataset = BarDataset(datasetLabel: string, backgroundColor: Option<Colour>, data: Series)

  /** The dataset for the stateLabel at position idx of the size series' keys:
      `colourValues[idx]` exists for the first five labels only. */
  function DatasetAt(v: View, stateLabel: string, idx: nat): (d: BarDataset)
    ensures d.datasetLabel == stateLabel
    ensures d.backgroundColor.Some? <==> idx < 5
    ensures d.backgroundColor.Some? ==> d.backgroundColor.value == Hsla(idx, 5, 10)
    ensures d.data == DataForMode(v, v.mode, stateLabel)
  {
    BarDataset(stateLabel, if idx < |Colours| then Some(Colours[idx]) else None, DataForMode(v, v.mode, stateLabel))
  }

  /** After a successful refresh, count mode plots each label's counts and size
      mode its clamped sizes, one per entry reporting the stateLabel, in storage order;
      any other mode plots nothing. */
  lemma DataForModeAfterRefresh(v: View, data: seq<StorageEntry>, mode: int, s: string)
    requires s in Labels(Reported(data))
    ensures ModeOf(mode) == Count ==>
              DataForMode(Refreshed(v, Ok(data)), mode, s) == Values(Counts(Matching(Reported(data), s)))
    ensures ModeOf(mode) == Size ==>
              DataForMode(Refreshed(v, Ok(data)), mode, s) == Values(Sizes(Matching(Reported(data), s)))
    ensures ModeOf(mode).Other? ==> DataForMode(Refreshed(v, Ok(data)), mode, s) == Null
  {
  }

  /** What `labelForMode` returns: `[text, suffix]`, or `null`. */
  datatype Label = Pair(text: string, suffix: Option<string>) | NullLabel

  /** `labelForMode(rawValue)`. The size branch defers to the byte formatter,
      passed in as `bytes` because its source is not part of this model. */
  function LabelForMode(mode: int, rawValue: int, bytes: int -> (string, string)): (r: Label)
    ensures ModeOf(mode) == Count ==> r.Pair? && r.suffix == None
    ensures ModeOf(mode).Other? <==> r == NullLabel
  {
    match ModeOf(mode)
    case Count => Pair(NumberWithCommas(rawValue), None)
    case Size => Pair(bytes(rawValue).0, Some(bytes(rawValue).1))
    case Other(_) => NullLabel
  }

  /** In count mode the label is the value's digits with thousands separators
      and no suffix. */
  lemma CountLabelIsSeparatedDigits(rawValue: nat, bytes: int -> (string, string))
    ensures LabelForMode(CHART_MODE_COUNT, rawValue, bytes).suffix == None
    ensures Text.Without(LabelForMode(CHART_MODE_COUNT, rawValue, bytes).text, ',') == Text.Decimal(rawValue)
    ensures ThousandsShaped(LabelForMode(CHART_MODE_COUNT, rawValue, bytes).text)
  {
    CommasStripToDecimal(rawValue);
    CommasShape(rawValue);
  }

  /** `result[1] ? result[0] + result[1] : result[0]`, as the tick callback and
      the tooltip join a label; `None` for the null label, whose indexing throws. */
  function JoinLabel(l: Label): (t: Option<string>)
    ensures t.None? <==> l.NullLabel?
    ensures l.Pair? ==> |t.value| >= |l.text| && t.value[..|l.text|] == l.text
    ensures l.Pair? && !Truthy(l.suffix) ==> t.value == l.text
    ensures l.Pair? && Truthy(l.suffix) ==> t.value[|l.text|..] == l.suffix.value
  {
    match l
    case NullLabel => None
    case Pair(text, suffix) => Some(if Truthy(suffix) then text + suffix.value else text)
  }

  /** The bar tooltip for value `rawValue` of the dataset labelled `datasetLabel`.
      When labelling throws, the catch branch prints the tooltip item's own
      x label and the raw value instead. */
  function StorageTooltip(mode: int, rawValue: int, datasetLabel: string, itemXLabel: string,
                          bytes: int -> (string, string)): string
  {
    match JoinLabel(LabelForMode(mode, rawValue, bytes))
    case Some(y) => datasetLabel + ": " + y
    case None => itemXLabel + ": " + Text.IntToString(rawValue)
  }

  /** In count mode the tooltip names the state, then gives the count with
      thousands separators; in an unrecognised mode it falls back to the raw value. */
  lemma StorageTooltipCases(mode: int, rawValue: nat, datasetLabel: string, itemXLabel: string,
                            bytes: int -> (string, string))
    ensures
      var t := StorageTooltip(mode, rawValue, datasetLabel, itemXLabel, bytes);
      var head := datasetLabel + ": ";
      && (ModeOf(mode) == Count ==>
            && |t| >= |head| && t[..|head|] == head
            && t[|head|..] == NumberWithCommas(rawValue)
            && Text.Without(t[|head|..], ',') == Text.Decimal(rawValue)
            && ThousandsShaped(t[|head|..]))
      && (ModeOf(mode).Other? ==> t == itemXLabel + ": " + Text.Decimal(rawValue))
  {
    var t := StorageTooltip(mode, rawValue, datasetLabel, itemXLabel, bytes);
    var head := datasetLabel + ": ";
    if ModeOf(mode) == Count {
      assert t == head + NumberWithCommas(rawValue);
      assert t[|head|..] == NumberWithCommas(rawValue);
      CommasStripToDecimal(rawValue);
      CommasShape(rawValue);
    }
  }

  /** The y-axis title: "Size" in size mode, "File count" in every other mode. */
  function AxisTitle(mode: int): (title: string)
    ensures title == "Size" <==> mode == CHART_MODE_SIZE
    ensures title == "File count" <==> mode != CHART_MODE_SIZE
  {
    if mode == CHART_MODE_SIZE then "Size" else "File count"
  }

  lemma ReportedPair(a: StorageEntry, b: StorageEntry)
    ensures Reported([a, b]) == a.states + b.states
  {
    assert [a, b][..1] == [a];
    assert [a][..0] == [];
    assert Reported([a]) == Reported([]) + a.states;
  }

  lemma MatchingOfFour(a: StorageState, b: StorageState, c: StorageState, d: StorageState, s: string)
    ensures Matching([a, b, c, d], s) ==
      (if a.state == s then [a] else []) + (if b.state == s then [b] else []) +
      (if c.state == s then [c] else []) + (if d.state == s then [d] else [])
  {
    MatchingSnoc([a, b, c], d, s);
    MatchingSnoc([a, b], c, s);
    MatchingSnoc([a], b, s);
    MatchingSnoc([], a, s);
    assert [a, b, c] + [d] == [a, b, c, d];
    assert [a, b] + [c] == [a, b, c];
    assert [a] + [b] == [a, b];
    assert [] + [a] == [a];
  }

  lemma MatchingTwoStates(x1: StorageState, y1: StorageState, x2: StorageState, y2: StorageState)
    requires x1.state == x2.state && y1.state == y2.state && x1.state != y1.state
    ensures Matching([x1, y1, x2, y2], x1.state) == [x1, x2]
    ensures Matching([x1, y1, x2, y2], y1.state) == [y1, y2]
  {
    MatchingOfFour(x1, y1, x2, y2, x1.state);
    MatchingOfFour(x1, y1, x2, y2, y1.state);
  }

  /** Two storages that each report a state `s` and then a different state `t`. */
  lemma TwoStoragesTwoStates(x1: StorageState, y1: StorageState, x2: StorageState, y2: StorageState)
    requires x1.state == x2.state && y1.state == y2.state && x1.state != y1.state
    ensures
      var g := ProcessData([StorageEntry("VX-9", [x1, y1]), StorageEntry("VX-4", [x2, y2])]);
      && g.countPoints[x1.state] == [x1.count, x2.count]
      && g.sizePoints[x1.state] == [PlottedSize(x1.totalSize), PlottedSize(x2.totalSize)]
      && g.sizePoints[y1.state] == [PlottedSize(y1.totalSize), PlottedSize(y2.totalSize)]
  {
    var data := [StorageEntry("VX-9", [x1, y1]), StorageEntry("VX-4", [x2, y2])];
    var sts := [x1, y1, x2, y2];
    ReportedPair(data[0], data[1]);
    assert Reported(data) == sts by {
      assert [x1, y1] + [x2, y2] == sts;
    }
    var g := ProcessData(data);
    MatchingTwoStates(x1, y1, x2, y2);
    SeriesAt(g, sts, 0);
    SeriesAt(g, sts, 1);
    PairSeries(x1, x2);
    PairSeries(y1, y2);
  }

  /** Where `GroupsAs` holds, the series of the i-th entry's label are that label's counts and sizes. */
  lemma SeriesAt(g: Grouping, sts: seq<StorageState>, i: nat)
    requires GroupsAs(g, sts) && i < |sts|
    ensures sts[i].state in g.countPoints && sts[i].state in g.sizePoints
    ensures g.countPoints[sts[i].state] == Counts(Matching(sts, sts[i].state))
    ensures g.sizePoints[sts[i].state] == Sizes(Matching(sts, sts[i].state))
  {
    assert sts[i].state in Labels(sts);
  }

  lemma PairSeries(a: StorageState, b: StorageState)
    ensures Counts([a, b]) == [a.count, b.count]
    ensures Sizes([a, b]) == [PlottedSize(a.totalSize), PlottedSize(b.totalSize)]
  {
  }

  /** The UNKNOWN and LOST rows of the two-storage response used to exercise
      `processData`: UNKNOWN keeps its counts in storage order, and LOST's
      negative size is plotted as zero. */
  const ExampleData: seq<StorageEntry> := [
    StorageEntry("VX-9", [StorageState("UNKNOWN", 62, 57356821052), StorageState("LOST", 44, -44)]),
    StorageEntry("VX-4", [StorageState("UNKNOWN", 108, 146351189045), StorageState("LOST", 89, 1389345)])]

  lemma ProcessDataExample()
    ensures ProcessData(ExampleData).countPoints["UNKNOWN"] == [62, 108]
    ensures ProcessData(ExampleData).sizePoints["UNKNOWN"] == [57356821052, 146351189045]
    ensures ProcessData(ExampleData).sizePoints["LOST"] == [0, 1389345]
  {
    TwoStoragesTwoStates(StorageState("UNKNOWN", 62, 57356821052), StorageState("LOST", 44, -44),
                         StorageState("UNKNOWN", 108, 146351189045), StorageState("LOST", 89, 1389345));
  }

  // ---------------------------------------------------------------------------
  // The mode selector

  /** The selector's change handler as written: it stores the parsed mode in
      `chartMode`, a slot nothing but the selector itself reads. */
  function ModeSelectedAsWritten(v: View, code: int): (w: View)
    ensures w.chartMode == Some(code)
    ensures w.mode == v.mode
    ensures w.(chartMode := v.chartMode) == v
  {
    v.(chartMode := Some(code))
  }

  /** As written, choosing a mode never changes what the chart plots. */
  lemma SelectorIgnoredAsWritten(v: View, code: int, s: string)
    ensures DataForMode(ModeSelectedAsWritten(v, code), ModeSelectedAsWritten(v, code).mode, s)
            == DataForMode(v, v.mode, s)
  {
  }

  /** After the example response loads into the initial (size mode) view,
      choosing "View by file count" as written still plots UNKNOWN's sizes;
      the corrected handler plots its counts. */
  lemma SelectorIgnoredExample()
    ensures
      var v := Refreshed(Initial, Ok(ExampleData));
      var w := ModeSelectedAsWritten(v, CHART_MODE_COUNT);
      && DataForMode(w, w.mode, "UNKNOWN") == Values([57356821052, 146351189045])
      && DataForMode(ModeSelected(v, CHART_MODE_COUNT), CHART_MODE_COUNT, "UNKNOWN") == Values([62, 108])
  {
    ProcessDataExample();
  }

  /** The handler as evidently intended: the chosen mode becomes the mode the
      chart reads, and the selector shows it. */
  function ModeSelected(v: View, code: int): (w: View)
    ensures w.mode == code && w.chartMode == Some(code)
    ensures w.countPoints == v.countPoints && w.sizePoints == v.sizePoints
    ensures w.(mode := v.mode, chartMode := v.chartMode) == v
  {
    v.(mode := code, chartMode := Some(code))
  }

  /** Corrected, choosing count plots each label's counts, choosing size its
      clamped sizes, and any other choice plots nothing. */
  lemma SelectorSwitchesSeries(v: View, code: int, s: string)
    ensures
      var w := ModeSelected(v, code);
      && (code == CHART_MODE_COUNT ==> DataForMode(w, w.mode, s) == Lookup(v.countPoints, s))
      && (code == CHART_MODE_SIZE ==> DataForMode(w, w.mode, s) == Lookup(v.sizePoints, s))
      && (ModeOf(code).Other? ==> DataForMode(w, w.mode, s) == Null)
  {
  }
}
