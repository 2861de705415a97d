/** The StatsHistoryGraph scatter chart: backup-state counts per census scan,
    fetched for an optional time span. */
module StatsHistoryGraph {
  import opened Common
  import opened QueryString

  /** One scan of the `/api/jobs/forTimespan` response. */
  datatype JobEntry = JobEntry(scanStart: string, noBackupsCount: int,
                               partialBackupsCount: int, fullBackupsCount: int)

  /** One point of `facetData` (its `epoch`, a date conversion, is not modelled). */
  datatype Facet = Facet(scanLabel: string, noBackupsCount: int,
                         partialBackupsCount: int, fullBackupsCount: int)

  datatype View = View(loading: bool, lastError: Option<string>,
                       startingTimestamp: Option<string>, finishingTimestamp: Option<string>,
                       facetData: seq<Facet>)

  const Initial: View := View(false, None, None, None, [])

  const JobsEndpoint: string := "/api/jobs/forTimespan"

  /** `urlParams`: startAt when a start is set, then endAt when an end is set. */
  function UrlParams(v: View): seq<Param>
  {
    (if Truthy(v.startingTimestamp) then [Param("startAt", v.startingTimestamp.value)] else [])
    + (if Truthy(v.finishingTimestamp) then [Param("endAt", v.finishingTimestamp.value)] else [])
  }

  /** The URL `reload` requests. */
  function ReloadUrl(v: View): string
  {
    JobsEndpoint + ObjectToQueryString(Some(UrlParams(v)))
  }

  /** The four shapes the URL can take: each bound appears only when it is set,
      and startAt always precedes endAt. */
  lemma ReloadUrlShapes(v: View)
    ensures !Truthy(v.startingTimestamp) && !Truthy(v.finishingTimestamp) ==>
              ReloadUrl(v) == JobsEndpoint
    ensures Truthy(v.startingTimestamp) && !Truthy(v.finishingTimestamp) ==>
              ReloadUrl(v) == JobsEndpoint + "?startAt=" + v.startingTimestamp.value
    ensures !Truthy(v.startingTimestamp) && Truthy(v.finishingTimestamp) ==>
              ReloadUrl(v) == JobsEndpoint + "?endAt=" + v.finishingTimestamp.value
    ensures Truthy(v.startingTimestamp) && Truthy(v.finishingTimestamp) ==>
              ReloadUrl(v) == JobsEndpoint + "?startAt=" + v.startingTimestamp.value
                              + "&endAt=" + v.finishingTimestamp.value
  {
    var ps := UrlParams(v);
    var texts := PairTexts(ps);
    if Truthy(v.startingTimestamp) && Truthy(v.finishingTimestamp) {
      var s := v.startingTimestamp.value;
      var e := v.finishingTimestamp.value;
      assert texts[0] == "startAt=" + s by {
        assert texts[0] == "startAt" + "=" + s;
      }
      assert texts[1] == "endAt=" + e by {
        assert texts[1] == "endAt" + "=" + e;
      }
      assert |texts[1..]| == 1 && texts[1..][0] == texts[1];
      assert Text.Join(texts, '&') == texts[0] + "&" + texts[1];
    } else if Truthy(v.startingTimestamp) {
      assert texts[0] == "startAt" + "=" + v.startingTimestamp.value;
    } else if Truthy(v.finishingTimestamp) {
      assert texts[0] == "endAt" + "=" + v.finishingTimestamp.value;
    }
  }

  /** The URL's query reads back as exactly the bounds that are set, in order,
      as long as they hold no `&`. */
  lemma ReloadUrlParses(v: View)
    requires Truthy(v.startingTimestamp) ==> '&' !in v.startingTimestamp.value
    requires Truthy(v.finishingTimestamp) ==> '&' !in v.finishingTimestamp.value
    ensures ReloadUrl(v)[..|JobsEndpoint|] == JobsEndpoint
    ensures ParseQueryString(ReloadUrl(v)[|JobsEndpoint|..]) == Some(UrlParams(v))
    ensures |UrlParams(v)| == (if Truthy(v.startingTimestamp) then 1 else 0) + (if Truthy(v.finishingTimestamp) then 1 else 0)
  {
    var ps := UrlParams(v);
    if ps != [] {
      assert Unambiguous(ps);
      QueryStringRoundTrip(ps);
    }
  }

  /** `facetData`: one point per scan, in order, copying the three counts. */
  function FacetData(entries: seq<JobEntry>): (facets: seq<Facet>)
    ensures |facets| == |entries|
    ensures forall i :: 0 <= i < |entries| ==>
              && facets[i].scanLabel == entries[i].scanStart
              && facets[i].noBackupsCount == entries[i].noBackupsCount
              && facets[i].partialBackupsCount == entries[i].partialBackupsCount
              && facets[i].fullBackupsCount == entries[i].fullBackupsCount
  {
    if entries == [] then []
    else
      var e := entries[0];
      [Facet(e.scanStart, e.noBackupsCount, e.partialBackupsCount, e.fullBackupsCount)] + FacetData(entries[1..])
  }

  /** `reload` clears the error and sets `loading` before it issues the request. */
  function StartReload(v: View): (w: View)
    ensures w.loading && w.lastError == None && w.facetData == v.facetData
    ensures w.startingTimestamp == v.startingTimestamp && w.finishingTimestamp == v.finishingTimestamp
  {
    v.(loading := true, lastError := None)
  }

  /** How the request settles; a failure keeps the previous points. */
  function Reloaded(v: View, response: Response<seq<JobEntry>>): (w: View)
    ensures !w.loading
    ensures w.startingTimestamp == v.startingTimestamp && w.finishingTimestamp == v.finishingTimestamp
    ensures response.Ok? ==> w.lastError == None && w.facetData == FacetData(response.body)
    ensures response.Failed? ==> w.lastError == Some(response.error) && w.facetData == v.facetData
  {
    match response
    case Ok(entries) => v.(loading := false, lastError := None, facetData := FacetData(entries))
    case Failed(e) => v.(loading := false, lastError := Some(e))
  }

  /** The view mounts with neither bound set, so the first reload asks for every
      job with no query at all; if it fails nothing is plotted. */
  lemma MountRequestsAllJobs(error: string)
    ensures ReloadUrl(StartReload(Initial)) == JobsEndpoint
    ensures Reloaded(StartReload(Initial), Failed(error)).facetData == []
  {
    ReloadUrlShapes(StartReload(Initial));
  }
}
